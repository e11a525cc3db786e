# A model of pgprox's decisions, in Dafny

pgprox is a multitenant connection proxy for Postgres. A fleet of nodes shares each upstream
server's connection cap; a node divides its part over its pools, watches replicas and primaries,
drains on request, keeps a registry of its clients and prints gauges about them. A load client,
pgload, drives it and reports what clients were told. This project models the logic behind those
decisions and proves what the repository says about them, over every input and every run.

Nothing here performs I/O. Clocks, the network, probes, server frames and the order connections finish in
are parameters or events of a state machine, so a theorem about every run covers every value of
them. Time is one unbounded clock in nanoseconds.

## What is here

- `Fleet`, `FleetGossip`, `FleetSafety`, `FleetTheorems`, `FleetIssuers`, `FleetBreaches`, `FleetLimits`,
  with `Ledger`, `LeaseWire` and `Split`: the lease protocol as a state machine. Any node may hear any other, late,
  stale or never; nodes restart, drain, ask, give up; leaders answer late. `LeaseLedger` is the
  ledger as the object it is.
- `FleetCamps`, `FleetCourt`, `FleetExact`, `FleetLateRun`, `FleetSlowRun`, `FleetLapse`: runs of that
  machine built at any pace of gossip inside the doubt window, and the exact conditions they prove.
- `Shares`, `QuotaPass`: an allowance divided over pools, and the pass that applies it.
- `Replicas`, `ReplicaRuns`, `PrimaryWatch`, `Drain`, `Sessions`: the mutable registries as classes
  whose methods are proved equal to functions of the old state, and whole runs of them.
- `Exposition`, `Metrics`, `Wire`, `Scanner`: printing and reading text, gossip messages, and the
  keyword scan.
- `LoadClient`, `LoadReport`, `LoadRun`: the load client's session, counts and report.
- `Basics`, `Totals`, `Text`: shared vocabulary, sums over maps, decimal numbers.

## What turned out false, and exactly when it holds

Below, n nodes run of a fleet configured for F; a majority is m = F / 2 + 1 nodes; G is the
guaranteed part of the cap, a portion is G / F rounded down, and the pool is the rest of the cap. A
run is steady if leases are placed promptly and no late answer takes back a lease in hand, and sound
if also no bridge (a member heard by two leading nodes that do not hear each other) lasts longer than
the takeover wait leaves beyond a lease's life. It is orderly if steady and no two nodes can grant within
a lease life of each other, which sound runs of fleets with n < 2 m are.

- The invariant that guaranteed share plus leases stays within the cap under arbitrary partition
  (`crates/pgprox-cluster/src/lib.rs:8-15`) does not hold of the code. Majorities overlap, so n - m + 1
  nodes that all hear the same m - 1 others can be in office together for as long as you like, and
  each leases the pool. Whatever the network does, no steady run comes to more than n portions and
  the pool n - m + 1 times (`FleetIssuers.WorstCaseBounds`), a run reaches it at any pace
  (`FleetExact.WorstCaseReached`), and so the cap holds in every steady run exactly when that fits the
  cap (`FleetExact.AnyNetworkExactly`). At the configured size it fits for one or two nodes; for three
  it fails exactly when the pool exceeds G % 3 (`FleetExact.WorstCaseConfigured`,
  `FleetExact.BridgePassesCap`).
- At one instant, from a state with nothing leased, the pool is safe exactly when at most one node can
  grant, and the cap exactly when the shares and the pool once for each node able to grant fit it
  (`FleetBreaches.PoolSafeExactly`, `FleetBreaches.CapSafeExactly`).
- The cap holds in every sound run of a fleet of an allowed size; leader loss, stalls, drains and
  restarts are all within it (`FleetTheorems.CapHoldsWithoutBridges`).
- Running more nodes than configured is called safe (`crates/pgprox-cluster/src/coordinator.rs:80-85`).
  In every sound run the shares fit the guaranteed part and the leases fit the pool exactly when
  n < 2 m and n portions are within G (`FleetExact.FleetSizeExactly`): from 2 m nodes on there are
  majorities with nobody in common, each leasing the pool with nothing bridged. While everyone sees
  everyone the shares shrink to fit, whatever n is (`FleetTheorems.CapHoldsInSight`). While n < 2 m the cap
  holds in every sound run exactly when n portions are within G (`FleetExact.PortionsExactly`). A
  sound run passes the cap whenever they are not, or whenever n portions and the pool n / m times
  exceed it (`FleetExact.SoundRunPassesCap`).
- A request its asker has abandoned can still be answered, and then rewrites the leader's record of
  a larger lease downward. With one leader, nothing wrong with the network, every request waiting out
  its timeout and every lease placed at once, that alone ends with all but one of the pool leased
  twice (`FleetLateRun.LateRequestRun`), past the cap of a fleet at its configured size when the pool
  exceeds G % F + 1 (`FleetLateRun.LateRequestPassesCap`). Such an answer is harmless exactly when it
  asked for no less than its asker now holds (`FleetBreaches.LateRequestExactly`); when it asked for
  less, the cap is kept exactly when the shares leave room for the pool and the difference
  (`FleetBreaches.LateCapExactly`).
- Even in a sound run the limits of the pools lag behind: a lease that lapses and is leased again
  before its first holder's next pass is counted twice (`FleetLapse.LapsedLimits`), past the cap when
  the pool exceeds G % F (`FleetLapse.LapsePassesCap`). The excess is never more than what has lapsed
  (`FleetLimits.PoolsFitCap`).
- Subtracting the round trip does not alone stop a holder outlasting the leader's record: the pause
  between the elapsed reading and the deadline counts too (`LeaseWire.OverholdsExactly`). An answer that
  lies unplaced for a lease's life ends, with one leader and nothing late, with the pool leased twice
  (`FleetSlowRun.SlowPlacingRun`), past the cap at the configured size when the pool exceeds G % F
  (`FleetSlowRun.SlowPlacingPassesCap`).
- The shares of an allowance sum to it unless there are more pools than a 32-bit number can count,
  when every share is zero (`Shares.SharesAcrossPools`).
- A server address with an empty host or port zero does not parse back, and takes its whole digest
  with it (`Wire.ServerRoundTrip`, `Wire.DigestRoundTrip`).
- A session that retries a prepared name after a failure parses it twice; the load loop never does
  (`LoadClient.ParsedOnceExactly`, `LoadClient.Drive`).

Where code and comments disagree the code is followed: the keyword scan nests block comments though
its summary says it does not (`fuzz/fuzz_targets/classify.rs:26-45`), and closing an idle client
fires the same signal as a shed next to a flag, not a signal of its own
(`bin/pgprox/src/sessions.rs:262-282`).

## Model

| member | source | states |
|---|---|---|
| `Ledger.GrantStaysInPool` | crates/pgprox-cluster/src/lease.rs:180-218 | whatever was outstanding before, a grant leaves no more than the pool outstanding, never exceeds what was wanted, and changes no other holder's entry |
| `Ledger.AnswerExactly` | crates/pgprox-cluster/src/lease.rs:180-218 | nothing out of office or before the wait, nothing while others have all of the pool, and otherwise what was wanted or what the others leave of it, never nothing for whoever wants something, for one lease life |
| `Ledger.RenewalNeverShrinks` | crates/pgprox-cluster/src/lease.rs:180-218 | a holder renewing for at least what it keeps is granted at least that, so long as the record was within the pool |
| `Ledger.OutstandingShrinks` | crates/pgprox-cluster/src/lease.rs:152-170 | time passing and reaping only ever lower what is outstanding |
| `Ledger.LeaseLedger.constructor` | crates/pgprox-cluster/src/lease.rs:86-93 | a new ledger is out of office with nothing granted |
| `Ledger.LeaseLedger.ObserveLeadership` | crates/pgprox-cluster/src/lease.rs:128-141 | office is stamped on the transition in, kept while it lasts, and the record is dropped on the way out |
| `Ledger.ReapChangesNoAnswer` | crates/pgprox-cluster/src/lease.rs:168-170 | reaping is housekeeping: no total and no answer to any request changes, then or later |
| `Ledger.LeaseLedger.HeldByOthers` | crates/pgprox-cluster/src/lease.rs:191-198 | the loop over the record computes what everyone but the asker has outstanding |
| `Ledger.LeaseLedger.Serve` | crates/pgprox-cluster/src/lease.rs:180-218 | the request in place is the request function: refused without office or wait, refused when others fill the pool, otherwise the smaller of want and headroom |
| `LeaseWire.DeadlineBound` | bin/pgprox/src/gossip.rs:369-395 | whatever the delays, the holder's deadline is at most the later of the leader's deadline and the arrival, plus the pause between the last two readings |
| `LeaseWire.OverholdsExactly` | bin/pgprox/src/gossip.rs:500-549 | a lease with life left outlasts the leader's record if and only if that pause exceeds the request's journey out plus what rounding dropped |
| `LeaseWire.PromptNeverOverholds` | bin/pgprox/src/gossip.rs:500-549 | with a pause no longer than the journey out the lease ends by the leader's deadline or was spent when placed |
| `Split.DivideWithinCap` | crates/pgprox-cluster/src/quota.rs:78-112 | every share used and the free pool fully leased stay within the cap for any fraction, stranding fewer than one connection a node, and the pool does not move with the node count |
| `Split.ShareShrinksWithSight` | crates/pgprox-cluster/src/coordinator.rs:309-322 | seeing more nodes never raises a share above the configured one, and seeing no more than configured leaves it exactly there |
| `Split.ShareIsWholePart` | crates/pgprox-cluster/src/coordinator.rs:309-322 | the share is the whole part of the guaranteed total over the larger of the configured fleet and what the node sees |
| `Split.GuaranteedIsWholePart` | crates/pgprox-cluster/src/quota.rs:78-112 | the guaranteed total is the whole part of the fraction of the cap, a fraction outside zero to one counting as the nearer of them |
| `Split.SeersFit` | crates/pgprox-cluster/src/coordinator.rs:309-322 | nodes that each see all of their number have shares within the guaranteed part together, however many were configured |
| `Split.GuaranteesFitExactly` | crates/pgprox-cluster/src/coordinator.rs:309-322 | for every pattern of who sees whom the shares fit the guaranteed part, if and only if the number of nodes times the configured share does |
| `Split.ConfiguredFleetFits` | crates/pgprox-cluster/src/coordinator.rs:76-86 | a fleet no larger than configured always fits |
| `FleetSafety.InitialInv` | crates/pgprox-cluster/src/coordinator.rs:184-207 | a fleet of fresh nodes satisfies the invariant: sound records and exchanges, every live lease on its issuer's unbroken record, and what each node has issued within the pool |
| `FleetSafety.AdvanceKeeps` | crates/pgprox-cluster/src/coordinator.rs:405-414 | time passing keeps every lease on record and each node's issue within the pool |
| `FleetSafety.HearKeeps` | crates/pgprox-cluster/src/coordinator.rs:241-290 | any arrival or tick, with the office it gives or takes, keeps the invariant |
| `FleetGossip.SenderAfter` | crates/pgprox-cluster/src/coordinator.rs:241-261 | after an arrival its sender is heard now, in the mode it says if its digest is kept and in the mode it had if not, and one unknown that says nothing worth keeping stays unknown |
| `FleetGossip.OthersAfter` | crates/pgprox-cluster/src/membership.rs:115-226 | after an arrival anyone but its sender is as it was, or gone if silent for the death window |
| `FleetGossip.StaleSaysNothing` | crates/pgprox-cluster/src/membership.rs:125-144 | whoever a node knows after a stale digest it knew before, in the same mode |
| `FleetGossip.BeliefIsGrounded` | crates/pgprox-cluster/src/coordinator.rs:241-261 | at every state of every run the mode a node believes of a peer is the one its last kept digest carried and the contact is its last arrival, both since the node last restarted |
| `FleetGossip.DrainStands` | crates/pgprox-cluster/src/membership.rs:125-144 | a node last heard draining in a kept digest is in no majority and leads nothing in the hearer's eyes until it says it is active again, whatever stale digests arrive |
| `FleetGossip.DrainingGrantsNothing` | crates/pgprox-cluster/src/coordinator.rs:340-401 | a node that has told itself it is draining can grant nothing until it takes that back |
| `FleetGossip.KnownWhileHeard` | crates/pgprox-cluster/src/membership.rs:155-189 | a peer heard in a kept digest within the death window is known, unless the hearer restarted |
| `FleetGossip.ShareCountsHeard` | crates/pgprox-cluster/src/coordinator.rs:309-322 | everyone heard in a kept digest within the death window divides the guaranteed part, suspect or draining though they may be |
| `FleetGossip.LowerHeardForbids` | crates/pgprox-core/src/cluster.rs:141-149 | a node that has heard a lower active one within the death window grants nothing, though that one may be suspect |
| `FleetGossip.GrantNeedsMajority` | crates/pgprox-cluster/src/coordinator.rs:327-334 | a node able to grant has more than half the configured fleet whose last kept word was active and who were heard within the doubt window |
| `FleetSafety.AskKeeps` | crates/pgprox-cluster/src/service.rs:324-364 | a node asking its own ledger and then the leader it sees keeps the invariant |
| `FleetTheorems.AskExactly` | crates/pgprox-cluster/src/service.rs:324-364 | asking does nothing inside the allowance or with a request out; a node able to grant leases to itself what it lacks or what others leave and turns nowhere else; any other asks the lowest active node it sees, if that is another |
| `FleetSafety.ServeKeeps` | bin/pgprox/src/gossip.rs:369-395 | a leader's answer keeps the invariant, counting the lease still on its way |
| `FleetSafety.ServeLateKeeps` | bin/pgprox/src/gossip.rs:369-395 | an answer to an abandoned request keeps it when the request asked for no less than the asker could hold from that leader |
| `FleetTheorems.AnsweredLateOnce` | bin/pgprox/src/gossip.rs:369-395 | a request given up on is granted at most once in a run |
| `FleetSafety.PlaceKeeps` | bin/pgprox/src/gossip.rs:500-549 | placing a lease promptly keeps it: the deadline in hand is no later than the record's |
| `FleetSafety.RestartKeeps` | crates/pgprox-cluster/src/coordinator.rs:184-207 | a node that restarts, forgetting everything, keeps it |
| `FleetSafety.OnRecord` | crates/pgprox-cluster/src/lease.rs:128-150 | a live lease issued by a node that can grant is still on its record, for no fewer connections and no less long |
| `FleetSafety.StepKeeps` | crates/pgprox-cluster/src/coordinator.rs:241-447 | every step of the fleet keeps the invariant, however many nodes are able to grant, if a late answer takes nothing back and a lease is placed promptly |
| `FleetTheorems.SteadyInv` | crates/pgprox-cluster/src/coordinator.rs:241-447 | whatever the network does, at every state of every steady run what each node has issued fits the pool, and every lease was granted by a node able to |
| `FleetTheorems.OneIssuer` | crates/pgprox-cluster/src/coordinator.rs:19-24 | where no two nodes can grant within a lease life of each other, everything live has one issuer, and it is the node able to grant if there is one |
| `FleetTheorems.LeasesFitPool` | crates/pgprox-cluster/src/lib.rs:8-15 | at every state of every orderly run the unexpired leases in all hands fit the pool |
| `FleetTheorems.HoldersWithinRecord` | bin/pgprox/src/gossip.rs:369-395 | while a node can grant, every unexpired lease anywhere is covered by its record, entry by entry and in total |
| `FleetTheorems.SharesFit` | crates/pgprox-cluster/src/coordinator.rs:309-322 | whatever each node sees, the shares believed in fit the guaranteed part if a portion for every running node does |
| `FleetTheorems.SharesFitInSight` | crates/pgprox-cluster/src/coordinator.rs:309-322 | nodes that each see as many as there are believe in no more than the guaranteed part together, however many were configured |
| `FleetTheorems.CapHolds` | crates/pgprox-cluster/src/lib.rs:8-15 | at every state of every orderly run of nodes whose portions fit, the allowances of all nodes sum within the cap |
| `FleetTheorems.CapHoldsInSight` | crates/pgprox-cluster/src/coordinator.rs:80-85 | the cap holds at any state of an orderly run at which everyone sees everyone, for a fleet of any size |
| `FleetTheorems.OfficeSpan` | crates/pgprox-cluster/src/lease.rs:128-141 | office recorded since a time was held at every state since that time |
| `FleetTheorems.ServingSince` | crates/pgprox-cluster/src/coordinator.rs:330-334 | a node able to grant has looked at its view within every doubt window of its whole term: keeping office takes a majority, so someone besides the node just heard was heard in time |
| `FleetTheorems.CloseGrantersOverlap` | crates/pgprox-cluster/src/coordinator.rs:129-137 | two nodes able to grant less than a lease life apart have been serving together for longer than the wait leaves beyond that life |
| `FleetTheorems.WaitSeparatesGranters` | crates/pgprox-cluster/src/coordinator.rs:129-137 | if no two nodes serve together for longer than the wait leaves beyond a lease life, grants by different nodes are a lease life apart, whoever stalls in office and however many nodes run of a fleet configured for two or more |
| `FleetTheorems.ViewsHold` | crates/pgprox-cluster/src/membership.rs:115-226 | at every state of every run a node in office led its own view with a majority when it last looked |
| `FleetTheorems.MajoritiesMeet` | crates/pgprox-cluster/src/coordinator.rs:327-334 | two sets of members larger together than the membership share a member |
| `FleetTheorems.StoppedOrDrainingBridgesNobody` | crates/pgprox-cluster/src/membership.rs:193-200 | a node that has stopped, or is draining, is part of no bridge, so leader loss and drains are within the cap theorem |
| `FleetTheorems.DualOfficeIsBridged` | crates/pgprox-cluster/src/coordinator.rs:327-334 | in a fleet any two majorities of which meet, two nodes serve together only while both lead the view they last took, the higher does not see the lower, and some member other than the lower is heard by both (a third node, or the higher itself where only its own hearing fails) |
| `FleetTheorems.CapHoldsWithoutBridges` | crates/pgprox-cluster/src/lib.rs:8-15 | the cap holds at every state of every run, whatever is lost, delayed, reordered or partitioned and whoever stops, drains or restarts, if any two majorities of the running fleet meet, a portion for every node fits the guaranteed part, no bridge keeps two nodes leading for longer than the wait leaves beyond a lease life, no late answer takes back a lease in hand and leases are placed promptly |
| `FleetIssuers.EligibleCount` | crates/pgprox-core/src/cluster.rs:141-149 | of n members n - m + 1, and none when n is below m, have the m - 1 others above them that leading a majority takes |
| `FleetIssuers.GranterIsEligible` | crates/pgprox-cluster/src/coordinator.rs:327-353 | a node able to grant at any state of any run has those m - 1 members above it |
| `FleetIssuers.LeasesFitSeats` | crates/pgprox-cluster/src/lib.rs:8-15 | whatever the network does, in every steady run the leases in all hands come to no more than the pool n - m + 1 times |
| `FleetIssuers.WorstCaseBounds` | crates/pgprox-cluster/src/lib.rs:8-15 | whatever the network does, in every steady run everyone together believes in no more than n portions and the pool n - m + 1 times |
| `FleetBreaches.PoolSafeExactly` | crates/pgprox-cluster/src/coordinator.rs:427-442 | from any state with nothing leased no pattern of asking passes the pool, if and only if at most one node can grant |
| `FleetBreaches.CapSafeExactly` | crates/pgprox-cluster/src/coordinator.rs:427-442 | from any state with nothing leased no pattern of asking passes the cap, if and only if the shares and the pool once for each node able to grant fit it |
| `FleetBreaches.AsksAtMost` | crates/pgprox-cluster/src/coordinator.rs:427-442 | no asking at one instant moves a share, or leases more than the pool for each node able to grant |
| `FleetBreaches.AsksCanReach` | crates/pgprox-cluster/src/coordinator.rs:427-442 | from any state with nothing leased some asking leases exactly the pool for each node able to grant |
| `FleetBreaches.LateRequestBreaches` | crates/pgprox-cluster/src/lease.rs:180-218 | a late request smaller than the lease in hand lets the leader lease the pool and the difference, whoever else it has granted to and whatever it holds itself |
| `FleetBreaches.LateRequestAtMost` | crates/pgprox-cluster/src/lease.rs:180-218 | after a late request smaller than the lease in hand no demand of the leader's leases more than the pool and the difference |
| `FleetBreaches.LateRequestExactly` | crates/pgprox-cluster/src/lease.rs:180-218 | for any record whose grants have arrived, a late answer is harmless, whatever the leader then gives itself, if and only if it asked for no less than its asker holds |
| `FleetBreaches.LateCapExactly` | crates/pgprox-cluster/src/lease.rs:180-218 | after a late answer smaller than the lease in hand the cap is kept, whatever the leader then gives itself, if and only if the shares leave room for the pool and the difference |
| `FleetCamps.CampsLast` | crates/pgprox-cluster/src/coordinator.rs:340-401 | any nodes each lowest of a bare majority it hears can be kept in office together for any number of rounds, at any pace inside the doubt window |
| `FleetCamps.ApartIsSound` | crates/pgprox-cluster/src/coordinator.rs:19-24 | nodes that hear nobody in common are never bridged, so a run of such nodes is sound |
| `FleetExact.CampsHandOut` | crates/pgprox-cluster/src/coordinator.rs:427-442 | any such nodes then each lease the whole pool, every member believing in a whole portion |
| `FleetExact.WorstCaseReached` | crates/pgprox-cluster/src/lib.rs:8-15 | for any members and any pace a steady run comes to a portion for every node and the pool for every node that can lead a majority |
| `FleetExact.AnyNetworkExactly` | crates/pgprox-cluster/src/lib.rs:8-15 | whatever the network does the cap holds in every steady run of these members, if and only if that worst case is within it |
| `FleetExact.WorstCaseConfigured` | crates/pgprox-cluster/src/lib.rs:8-15 | at the configured size the worst case is within the cap, if and only if the pool handed out again for each seat but one fits what the portions leave over |
| `FleetExact.BridgePassesCap` | crates/pgprox-cluster/src/lib.rs:8-15 | at the configured size, when it does not fit, a run with nothing late and nothing slow leases the pool to half the fleet, rounded up, and ends above the cap |
| `FleetExact.SoundRunReaches` | crates/pgprox-cluster/src/coordinator.rs:80-85 | a sound run leases the pool as often as the members hold majorities with nobody in common |
| `FleetExact.FleetSizeExactly` | crates/pgprox-cluster/src/coordinator.rs:80-85 | shares fit the guaranteed part and leases the pool in every sound run, if and only if any two majorities of the running fleet meet and a portion for every node fits the guaranteed part |
| `FleetExact.SoundRunPassesCap` | crates/pgprox-cluster/src/coordinator.rs:80-85 | when the portions do not fit, or not together with the pool once for every disjoint majority, a sound run ends above the cap |
| `FleetExact.PortionsExactly` | crates/pgprox-cluster/src/coordinator.rs:80-85 | where any two majorities meet the cap holds in every sound run, if and only if the portions fit |
| `FleetCourt.CourtIsExclusive` | crates/pgprox-cluster/src/coordinator.rs:327-334 | where only the leader hears a majority no other node ever grants and nothing is bridged |
| `FleetCourt.AskerLeases` | bin/pgprox/src/gossip.rs:500-549 | a node that hears only the leader asks, is served, reads and places, and holds the whole pool |
| `FleetLateRun.LateRequestRun` | bin/pgprox/src/gossip.rs:476-549 | in any fleet of two or more, at any pace: one leader, nothing bridged, prompt placing, every request given up on only after its timeout, and a run that ends with twice the pool less one leased: ask, wait out the timeout, ask for more, be served, and the first request is answered last |
| `FleetLateRun.LateRequestPassesCap` | bin/pgprox/src/gossip.rs:476-549 | at the configured size that run ends above the cap when the pool is larger than one more than what the portions leave over |
| `FleetSlowRun.SlowPlacingRun` | bin/pgprox/src/gossip.rs:500-549 | in any fleet of two or more, at any pace: one leader, nothing bridged, nothing late, every request patient, and an answer read at once but placed a lease life later ends the run with the pool leased twice |
| `FleetSlowRun.SlowPlacingPassesCap` | bin/pgprox/src/gossip.rs:500-549 | at the configured size that run ends above the cap when the pool is larger than what the portions leave over |
| `FleetLimits.NodeWithinAllowance` | bin/pgprox/src/run.rs:810-875 | after a pass a node's pools on a server are limited, together, to what it read |
| `FleetLimits.ShareNeverMoves` | crates/pgprox-cluster/src/coordinator.rs:309-322 | in a fleet no larger than configured a node's guaranteed share is the same at every state of every run |
| `FleetLimits.OnlyLeasesLapse` | crates/pgprox-cluster/src/coordinator.rs:309-322 | so between any two states of such a run a node loses no more of its allowance than of its lease |
| `FleetLimits.PoolsFitCap` | crates/pgprox-cluster/src/lib.rs:8-15 | from the protocol to the pools, whenever each node last ran its pass: in every run of the cap theorem the limits of all the pools of the fleet exceed the cap by no more than what has lapsed since those passes |
| `FleetLimits.PoolsFitWhileLeasesLast` | crates/pgprox-cluster/src/lib.rs:8-15 | and are within the cap while nothing a pass read has lapsed, which in a fleet no larger than configured is while no lease has |
| `FleetLapse.LapseRun` | crates/pgprox-cluster/src/lease.rs:152-170 | at any pace a sound run leases the pool to one node and, once that lease has lapsed, to another |
| `FleetLapse.LapsedLimits` | bin/pgprox/src/run.rs:810-875 | passes that each read what their node was allowed in that run leave the pools of the fleet limited to a portion for everyone and the pool twice |
| `FleetLapse.LapsePassesCap` | bin/pgprox/src/run.rs:810-875 | at the configured size that is above the cap when the pool is larger than what the portions leave over |
| `Shares.PositionIsRank` | bin/pgprox/src/run.rs:402-417 | position in the sorted order is the number of pools with higher demand, or equal demand and earlier |
| `Shares.SharesSumToTotal` | bin/pgprox/src/run.rs:393-420 | the rank formula hands out exactly the total |
| `Shares.GrowingTotal` | bin/pgprox/src/run.rs:402-417 | a larger allowance never lowers any pool's share |
| `Shares.GrowingDemand` | bin/pgprox/src/run.rs:402-417 | raising one pool's demand alone never lowers its own share |
| `Shares.Fair` | bin/pgprox/src/run.rs:402-417 | any two shares differ by at most one and the larger never goes to less demand |
| `Shares.SharesServeInOrder` | bin/pgprox/src/run.rs:402-417 | nobody is two connections ahead of anybody, more demand is never given less, and of two with as much demand the earlier is not given less |
| `Shares.OneSplit` | bin/pgprox/src/run.rs:402-417 | those promises and the total leave one split and no other |
| `Shares.SharesAcrossPools` | bin/pgprox/src/run.rs:393-420 | the loop computes the rank formula on the saturated sum, all zeros past 32 bits of pools, serves the pools in order of demand and then position, and says exactly when the shares add up |
| `Shares.HandOut` | bin/pgprox/src/run.rs:410-418 | giving one more to each of the first pools in order is adding one to exactly those of low rank |
| `QuotaPass.RowLimit` | bin/pgprox/src/run.rs:810-875 | the limit a pass leaves on the p-th pool of a server is its own share, or zero when the server is undeclared |
| `QuotaPass.PassHoldsServer` | bin/pgprox/src/run.rs:810-875 | after every pass a declared server's pools are limited, together, to the allowance last read, and an undeclared one's to nothing |
| `QuotaPass.HeldIsAccounted` | bin/pgprox/src/run.rs:245-258 | what a server's pools hold is their connections in use, idle and waited for |
| `QuotaPass.PassHoldsTo` | bin/pgprox/src/run.rs:810-875 | after a pass a server's pools divide what the cluster layer allows now, if they account for all it allowed at first and it then granted more, and what it allowed at first otherwise; a server the document caps neither itself nor through its primary gets nothing |
| `QuotaPass.DividedWhole` | bin/pgprox/src/run.rs:810-875 | with pools large enough all of it is handed out, the busier pool first and the earlier of two as busy |
| `QuotaPass.LimitsFitCap` | bin/pgprox/src/run.rs:810-875 | nodes within allowances that fit a cap have limits that fit it |
| `QuotaPass.ServersWithPools` | bin/pgprox/src/run.rs:271-282 | every server some pool is on, once each |
| `QuotaPass.PoolsHeld` | bin/pgprox/src/run.rs:245-258 | one server's pools in order and the connections they account for |
| `QuotaPass.Pools.SetAll` | bin/pgprox/src/run.rs:338-355 | exactly the given rows are held to exactly the given limits |
| `QuotaPass.Pools.HoldServer` | bin/pgprox/src/run.rs:810-875 | one server's turn sets its snapshot pools to their limits and touches no other server's |
| `QuotaPass.Pools.ApplyQuota` | bin/pgprox/src/run.rs:810-875 | the pass leaves every snapshot pool at its own limit, each visited under one server, every other pool as it was, and every server's pools dividing the reading that was last taken |
| `Replicas.ReplicaSets.WatchFor` | bin/pgprox/src/replicas.rs:162-211 | a lookup evicts, then joins or makes the one generation for the grant's key and stamps it; a grant with no replicas changes nothing |
| `Replicas.ReplicaSets.PrimaryOf` | bin/pgprox/src/replicas.rs:224-236 | in whatever order the map is walked, the answer is p if and only if the primaries naming the server are exactly p |
| `Replicas.SolePrimary` | bin/pgprox/src/replicas.rs:224-236 | some p if and only if the set of primaries is the singleton p |
| `ReplicaRuns.RunKeeps` | bin/pgprox/src/replicas.rs:162-282 | at every state of every run each reference is to the one generation its key names |
| `ReplicaRuns.SlotsAgree` | bin/pgprox/src/replicas.rs:83-100 | at every state of every run slot i of a session's watch is probed against the server its own grant puts at i, which is where routing to i goes |
| `ReplicaRuns.SharersExactly` | bin/pgprox/src/replicas.rs:83-100 | sessions share a watch if and only if their grants name the same primary and the same replicas in the same order |
| `ReplicaRuns.OneLivePerKey` | bin/pgprox/src/replicas.rs:162-211 | at every state of every run at most one live watch per key |
| `ReplicaRuns.HeldNeverDropped` | bin/pgprox/src/replicas.rs:245-250 | no step of any run drops a generation a session or a poll in flight holds |
| `ReplicaRuns.EvictionSuffices` | bin/pgprox/src/replicas.rs:162-211 | right after any lookup every generation in the map is held, recent, or the one just asked for |
| `ReplicaRuns.SameWatchExactly` | bin/pgprox/src/replicas.rs:238-250 | two sessions that ask for one key, with nobody asking for it between them, get the same watch if and only if at every lookup up to the second it is held or sixty seconds have not passed since the first asked |
| `ReplicaRuns.SameWatchWithinGrace` | bin/pgprox/src/replicas.rs:238-250 | two sessions that ask for one key within sixty seconds get the same watch, whoever left in between |
| `ReplicaRuns.GoneForGood` | bin/pgprox/src/replicas.rs:268-282 | a watch with no reference left is never referred to again |
| `ReplicaRuns.EvictedLoopStops` | bin/pgprox/src/replicas.rs:268-282 | an evicted generation's loop stops at its next tick, whenever that comes |
| `ReplicaRuns.LoopsExactly` | bin/pgprox/src/replicas.rs:268-282 | a loop runs exactly from when its watch is made to the first tick that finds the watch gone |
| `ReplicaRuns.PollingExactly` | bin/pgprox/src/replicas.rs:268-282 | a poll holds its watch exactly from the tick that finds it to the end of that poll |
| `PrimaryWatch.OnceEach` | bin/pgprox/src/primary_watch.rs:170-199 | in every run a watched primary has exactly one loop, and one invalidation and one refresh exactly on its demotion |
| `PrimaryWatch.DemotedExactly` | bin/pgprox/src/primary_watch.rs:254-290 | the flag is set if and only if some successful probe has reported recovery |
| `PrimaryWatch.OverrideFixed` | bin/pgprox/src/primary_watch.rs:298-330 | an override, once there, never changes |
| `PrimaryWatch.AnswerChangesOnce` | bin/pgprox/src/replicas.rs:297-317 | in a whole run the backend a primary resolves to changes at most once |
| `PrimaryWatch.AnswerStandsUntilDemoted` | bin/pgprox/src/replicas.rs:297-317 | until a probe has seen recovery it is the grant's own |
| `PrimaryWatch.WatchedExactly` | bin/pgprox/src/primary_watch.rs:170-199 | a server is watched if and only if some grant named it as its primary |
| `PrimaryWatch.AwaitsExactly` | bin/pgprox/src/primary_watch.rs:216-246 | a loop awaits a refresh exactly between its primary's demotion and the first answer |
| `PrimaryWatch.AnswerExactly` | bin/pgprox/src/replicas.rs:297-317 | a grant's primary resolves to the backend the refresh after its demotion came back with, and to its own while there is none |
| `PrimaryWatch.PastTheEnd` | bin/pgprox/src/replicas.rs:297-317 | routing past the end of a grant's replicas is routing to its primary |
| `PrimaryWatch.PrimaryWatches.EnsureWatched` | bin/pgprox/src/primary_watch.rs:170-199 | asking again changes nothing; the first ask adds an unset flag and one loop |
| `PrimaryWatch.PrimaryWatches.Handle` | bin/pgprox/src/primary_watch.rs:254-290 | only the transition reports true and invalidates; a failed or healthy probe changes nothing |
| `PrimaryWatch.PrimaryWatches.Poll` | bin/pgprox/src/primary_watch.rs:216-246 | one turn of a loop is one probe step of the machine |
| `PrimaryWatch.PrimaryWatches.FinishRefresh` | bin/pgprox/src/primary_watch.rs:298-330 | a refresh that answers stores the override, one that fails stores nothing |
| `Drain.StretchesAreRises` | bin/pgprox/src/run.rs:1048-1088 | counting tick by tick gives the number of maximal draining stretches |
| `Drain.Drainer.Settle` | bin/pgprox/src/drain.rs:131-140 | it ends at the first look that finds nobody, or past the grace with somebody left, and within one settle interval of the grace |
| `Drain.Drainer.Run` | bin/pgprox/src/drain.rs:101-124 | at every assignment a fired draining signal means the fleet was told first; closing fires only after the grace, only with clients left; the steps come in order, and the number it closes is how many are left then |
| `Drain.Drainer.Undrain` | bin/pgprox/src/drain.rs:147-151 | back in service, and at no assignment on the way is a node asked to leave while called active |
| `Drain.Drainer.Follow` | bin/pgprox/src/run.rs:1056-1088 | a tick starts the sequence exactly when draining is wanted and not signalled, and afterwards the node is as wanted |
| `Drain.Drainer.FollowAll` | bin/pgprox/src/run.rs:1048-1088 | for every sequence of ticks: announced at every assignment, one sequence per stretch, each in order and within its bounds |
| `Sessions.LiveStep` | bin/pgprox/src/sessions.rs:115-135 | how one call changes who is live |
| `Sessions.EntryStep` | bin/pgprox/src/sessions.rs:204-282 | through any call an entry stays what its client's history says: last real state change, last pin, close and idle exactly if asked since registering |
| `Sessions.EntryBegins` | bin/pgprox/src/sessions.rs:166-197 | a registration starts a life: idle from now, unpinned, nothing fired |
| `Sessions.HistoryOf` | bin/pgprox/src/sessions.rs:204-295 | what the table says of a live client, read off the history alone |
| `Sessions.TablesKeep` | bin/pgprox/src/sessions.rs:166-282 | one call of any kind keeps table, queues and counters in step with the history |
| `Sessions.TrimmedCounts` | bin/pgprox/src/sessions.rs:310-326 | a trimmed queue is as long as the count over the whole untrimmed history |
| `Sessions.CountWithinIs` | bin/pgprox/src/sessions.rs:310-326 | what is counted is the sheds no more than sixty seconds old |
| `Sessions.TrimFront` | bin/pgprox/src/sessions.rs:316-325 | popping while the front is stale stops at the first entry in the window and drops nothing that counts |
| `Sessions.CountPerTenant` | bin/pgprox/src/sessions.rs:365-401 | each tenant with a counted client is there with exactly how many, nobody else is, and the counts add up |
| `Sessions.NumberIs` | bin/pgprox/src/sessions.rs:365-401 | a tenant's number is how many clients it has, or how many of them are active |
| `Sessions.Registry.Register` | bin/pgprox/src/sessions.rs:166-197 | the registry agrees with its history after a registration |
| `Sessions.Registry.Drop` | bin/pgprox/src/sessions.rs:115-135 | and after a registration is dropped |
| `Sessions.Registry.SetState` | bin/pgprox/src/sessions.rs:204-211 | and after a state change: the time moves only when the state does |
| `Sessions.Registry.SetPinned` | bin/pgprox/src/sessions.rs:221-226 | and after a pin, counted only if it found a client |
| `Sessions.Registry.Shed` | bin/pgprox/src/sessions.rs:247-260 | and after a shed, which says whether there was such a client, and counts and dates it only then |
| `Sessions.Registry.CloseIdle` | bin/pgprox/src/sessions.rs:270-282 | and after an idle close, likewise |
| `Sessions.Registry.WasIdleTimeout` | bin/pgprox/src/sessions.rs:291-295 | true if and only if the client was idle-closed in its current life |
| `Sessions.Registry.RecentSheds` | bin/pgprox/src/sessions.rs:310-326 | the count over the full history of this tenant's successful sheds no older than the window, at most 32 bits, with the history that decides later answers untouched |
| `Sessions.Registry.PerTenant` | bin/pgprox/src/sessions.rs:365-372 | clients per tenant, adding up to all clients |
| `Sessions.Registry.PerTenantUpstream` | bin/pgprox/src/sessions.rs:392-401 | active clients per tenant, exactly, adding up |
| `Exposition.QuotedFinds` | bin/pgprox/src/metrics.rs:136-151 | any value escaped and quoted reads back, and reading stops at its own quote |
| `Exposition.EscapeInjective` | bin/pgprox/src/metrics.rs:136-151 | different values escape differently |
| `Exposition.BodyOneLine` | bin/pgprox/src/metrics.rs:153-168 | no sample contains a raw newline, whatever its label values |
| `Exposition.LineRead` | bin/pgprox/src/metrics.rs:153-168 | a sample's line reads back as the sample, leaving the rest |
| `Exposition.AllRead` | bin/pgprox/src/metrics.rs:153-168 | a whole scrape reads back as its samples |
| `Metrics.CountByStateAndTenant` | bin/pgprox/src/metrics.rs:110-122 | the loop builds the table of cells: each (state, label) some client is in, with how many are |
| `Metrics.CellsAddUp` | bin/pgprox/src/metrics.rs:110-122 | every client is counted in exactly one cell: the counts sum to the clients |
| `Metrics.CountIsShowing` | bin/pgprox/src/metrics.rs:110-122 | a cell counts the clients in that state whose tenant is that label, or is not allowed where the label is `other` |
| `Metrics.OffListUnnamed` | bin/pgprox/src/metrics.rs:110-122 | a tenant that is not allowed is named in no sample, whatever clients it has |
| `Metrics.EscapeLabelValue` | bin/pgprox/src/metrics.rs:136-151 | the character loop and its shortcut for plain values are the escape function |
| `Metrics.FormattedIsLine` | bin/pgprox/src/metrics.rs:160-167 | the formatted line, with node and state unescaped, is the sample's line |
| `Metrics.LabelSetInjective` | bin/pgprox/src/metrics.rs:160-167 | different cells have different label sets |
| `Metrics.ClientSamples` | bin/pgprox/src/metrics.rs:153-168 | reading the printed gauge gives, from the clients alone, how many show under each state and tenant label, one sample each and no other |
| `Metrics.SumByServer` | bin/pgprox/src/metrics.rs:186-192 | each server some pool is on, with its active and idle sums |
| `Metrics.SumsAre` | bin/pgprox/src/metrics.rs:186-192 | a server's two sums are its pools' connections in use and their idle ones |
| `Metrics.UpstreamSamples` | bin/pgprox/src/metrics.rs:185-203 | reading the printed gauge gives, from the pools alone, each server's connections in use and its idle ones, one sample each and no other |
| `Scanner.SkipBlock` | fuzz/fuzz_targets/classify.rs:80-97 | counting depth ends where recursive nesting ends, and the depth subtracted from is never zero |
| `Scanner.Interior` | fuzz/fuzz_targets/classify.rs:49-97 | nothing strictly inside a region is outside |
| `Scanner.SkipRegion` | fuzz/fuzz_targets/classify.rs:49-97 | each kind of region is left at its own end: the matching quote, the newline, the end of the nesting, or the end of input |
| `Scanner.QuoteCloses` | fuzz/fuzz_targets/classify.rs:49-97 | a quote ends just past the next quote of its own kind |
| `Scanner.LineCloses` | fuzz/fuzz_targets/classify.rs:49-97 | a line comment ends at its newline, which is outside it |
| `Scanner.BlockCloses` | fuzz/fuzz_targets/classify.rs:80-97 | a block comment with none inside it ends just past its first close |
| `Scanner.BlockNests` | fuzz/fuzz_targets/classify.rs:80-97 | one with another inside it ends where it would without the inner one |
| `Scanner.BareKeyword` | fuzz/fuzz_targets/classify.rs:98-120 | in text with no quote or comment a keyword is a whole word that is one of the five |
| `Scanner.MentionsDml` | fuzz/fuzz_targets/classify.rs:40-120 | true if and only if some maximal word outside every quote, line comment and nested block comment is a keyword followed by the end or by a byte that opens no region |
| `Wire.ServerRoundTrip` | crates/pgprox-core/src/ids.rs:96-130 | an address parses back to itself unless its host is empty or its port zero, and then it is refused |
| `Wire.PortExactly` | crates/pgprox-core/src/ids.rs:119-130 | a port is any decimal number of 16 bits, with or without a plus sign, and nothing else |
| `Wire.ServerInjective` | crates/pgprox-core/src/ids.rs:96-98 | an identifier names one host and one port |
| `Wire.ParsedIsMade` | crates/pgprox-core/src/ids.rs:119-130 | whatever parses is an identifier that parses back |
| `Wire.ParseDigest` | bin/pgprox/src/gossip.rs:253-278 | all or nothing: refused exactly when some address fails, otherwise every entry in its place |
| `Wire.ModeOnWire` | bin/pgprox/src/gossip.rs:217-278 | a node is read as draining if and only if it says so, and says so if and only if it is |
| `Wire.DigestRoundTrip` | bin/pgprox/src/gossip.rs:217-278 | a digest comes back as it left if and only if all its servers have a host and a port, and is refused otherwise |
| `Wire.ConnParts` | crates/pgprox-core/src/ids.rs:186-207 | node and secret come back out of a connection id, and make it up |
| `Wire.AgeKept` | bin/pgprox/src/gossip.rs:175-175 | an age loses less than a millisecond if and only if its milliseconds fit 64 bits |
| `Wire.StateOnWire` | bin/pgprox/src/gossip.rs:161-198 | each state has its own name, and a name nobody knows is read as idle |
| `Wire.ClientRoundTrip` | bin/pgprox/src/gossip.rs:161-198 | a client comes back as it left, but for its age on the wire, if and only if its connection id carries its serving node; otherwise only the id differs |
| `LoadClient.UntilReady` | bin/pgload/src/client.rs:287-323 | the verdict is the first error the server sent while the wait lasted, also when the socket then closes, unless the bytes stop making sense |
| `LoadClient.VerdictExactly` | bin/pgload/src/client.rs:287-323 | ready with nothing told is success and with an error told is the first one told; a wait that breaks off reports what broke it, unless an error was told and the socket merely closed or failed; reading goes on after the frame that ended the wait |
| `LoadClient.ParsedIsAsked` | bin/pgload/src/client.rs:331-354 | the names parsed on a connection are exactly the names asked for on it |
| `LoadClient.BindsKnown` | bin/pgload/src/client.rs:331-354 | whatever succeeds or fails, every Bind names a statement parsed earlier on the connection or in the same batch |
| `LoadClient.SentComplete` | bin/pgload/src/client.rs:331-354 | every Parse is followed by its Bind and every Bind by Execute and Sync |
| `LoadClient.OneWaitEach` | bin/pgload/src/client.rs:278-354 | each round trip asks for readiness exactly once |
| `LoadClient.SentAsAsked` | bin/pgload/src/client.rs:278-354 | every query and every statement sent is one that was asked for, under its own name |
| `LoadClient.ParsedOnceExactly` | bin/pgload/src/client.rs:331-354 | no name is parsed twice if and only if no name is asked for again after a failure without a success between |
| `LoadClient.DrivenParsesOnce` | bin/pgload/src/run.rs:310-351 | a session whose only failure is its last step parses no name twice |
| `LoadClient.RelocationExactly` | bin/pgload/src/client.rs:223-258 | a failed transaction is a relocation if and only if it failed at its first step told 57P01 |
| `LoadClient.RequestSays` | bin/pgload/src/client.rs:223-258 | a statement goes out as its own text, hinted if and only if a replica may serve it and prepared if and only if it is to be |
| `LoadClient.LoadSession.constructor` | bin/pgload/src/client.rs:103-114 | a new session has sent nothing and prepared nothing |
| `LoadClient.LoadSession.SimpleQuery` | bin/pgload/src/client.rs:278-284 | one step more with the error the write or the wait comes to, and what was sent and is remembered is what the steps determine |
| `LoadClient.LoadSession.ExtendedQuery` | bin/pgload/src/client.rs:331-354 | likewise: Parse only for a name not prepared, remembered only if the whole batch succeeded |
| `LoadClient.LoadSession.Transaction` | bin/pgload/src/client.rs:223-258 | every step of the wrapped plan succeeded in order, or it broke at one and reports that step's error, and lost work if and only if an earlier step, BEGIN included, succeeded |
| `LoadClient.Drive` | bin/pgload/src/run.rs:310-351 | a session driven until its first failure, whatever the server does: every Bind known, no name parsed twice |
| `LoadReport.RecordCounts` | crates/pgprox-load/src/report.rs:279-294 | recording counts exactly one more, and messages still account for each code's count exactly while below the cap |
| `LoadReport.RecordUnder` | crates/pgprox-load/src/report.rs:279-294 | under its own code and no other |
| `LoadReport.RecordSays` | crates/pgprox-load/src/report.rs:279-294 | it is counted under its own message unless that is new and eight are there, and no other message moves |
| `LoadReport.NothingCounted` | crates/pgprox-load/src/report.rs:324-338 | the total is zero if and only if no code is there |
| `LoadReport.Merge` | crates/pgprox-load/src/report.rs:300-315 | counts add code by code and messages under them, as far as eight of them go |
| `LoadRun.NotedAgrees` | bin/pgload/src/run.rs:279-345 | noting one more event keeps every field of a tally what the history adds up to |
| `LoadRun.CountsAre` | bin/pgload/src/run.rs:279-345 | the three counts are of the finished, those sent away with 57P01 and nothing lost, and all the rest |
| `LoadRun.CodeSays` | crates/pgprox-load/src/report.rs:279-294 | a failure is counted under the code the server gave and under `local` when it gave none |
| `LoadRun.UsedIs` | bin/pgload/src/run.rs:310-351 | a session's events are its transactions up to and including the first that failed |
| `LoadRun.OneSession` | bin/pgload/src/run.rs:310-351 | a session's transactions are tallied up to and including the first failure and no further |
| `LoadRun.OneConnection` | bin/pgload/src/run.rs:264-357 | for every sequence of attempts: latencies are the transactions', outcomes total errors plus relocations and match the history code by code, and the last failure kept is the last there was |
| `LoadRun.NewestMore` | bin/pgload/src/run.rs:502-507 | taking a tally's failure only when strictly newer keeps the newest failure of all so far, and of several as new the first taken |
| `LoadRun.AddUp` | bin/pgload/src/run.rs:487-508 | whatever order tallies come in, the totals are the sums and the failure in hand is a newest one |
| `LoadRun.Summarise` | bin/pgload/src/run.rs:473-529 | no report if and only if no transaction; every code's count is the sum over connections; its failure text is absent exactly when errors is zero and otherwise belongs to a failure with the greatest timestamp; without a report, nothing attempted is said exactly when nothing was |
| `LoadRun.Run` | bin/pgload/src/run.rs:264-529 | the same from attempts to report, for every set of connections in whatever order they finish |

## Left out

- Sockets, TLS, async scheduling, signals, HTTP routing, authentication, certificate reload and log gating: I/O or single branches.
- Connection caps that change during a run, and releasing a lease early, which nothing in the proxy calls.
- Floating point in the split: the guaranteed fraction is a real number clamped to [0, 1], so rounding and NaN are not captured.
- `Fleet`: membership and coordinator are modelled on values, one atomic step per locked method; update in place is captured for the ledger only (`Ledger.LeaseLedger`). Whether an arriving digest is newer is free, so the digest store's own ordering is not modelled; clock drift is not either. A request the leader refused may be put to it again, which only adds runs.
- FleetBreaches.LateRequestExactly: stated for a leader whose grants have reached their holders' hands; one still on its way is not counted as leased until it is placed.
- FleetTheorems.CapHoldsWithoutBridges: its conditions on a run are sufficient; without the one on bridges the exact condition is `FleetExact.AnyNetworkExactly`, without the one on size `FleetExact.FleetSizeExactly`, and what goes wrong without the other two is shown by `FleetLateRun.LateRequestRun` and `FleetSlowRun.SlowPlacingRun`, not as one equivalence over whole runs.
- FleetExact.SoundRunPassesCap: for 2 m nodes or more the most a sound run can come to lies between what this run reaches and the worst case of any network; bridges that keep changing pairs make the exact figure a different question.
- FleetExact.FleetSizeExactly: about the two parts of the cap each within its own bound; with 2 m nodes or more and a small enough pool the leases can pass the pool while the total stays within the cap.
- FleetLimits.PoolsFitCap: a pool made between passes keeps its build-time limit until the next one and is outside the snapshot the bound is about.
- ReplicaRuns.HeldNeverDropped: each method under the registry lock is one step, and a loop's upgrade of its weak reference is part of its tick.
- Sessions.Registry.RecentSheds: the clock of sheds and readings does not go backward; each registration brings a fresh signal and flag; counters are unbounded. `budget_for`, `views`, the cancel registry and the idle and shed passes are left out.
- Drain.Drainer.FollowAll: the number of clients over time is an arbitrary schedule, not tied to the session registry.
- Metrics.ClientSamples: cells are printed in some order rather than the sorted one, and counts are unbounded. The other gauges and the tenant allowlist's own rules are left out.
- Metrics.UpstreamSamples: likewise.
- Scanner.MentionsDml: text is a sequence of characters, so a multi-byte character is one position; it is neither a word byte nor an opener either way.
- LoadClient.UntilReady: a server that stays silent forever is not modelled; a connection's incoming frames end with the socket closing.
- LoadRun.Run: which transactions are sampled, deadlines, think time and ramp decide only which attempts there are. Latency percentiles and the wording of the no-transaction message are left out.
- The query cache, buffers, routing statistics, SHOW commands and configuration parsing would only add easy members.
