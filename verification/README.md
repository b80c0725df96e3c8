# Verified model of CoreRAD

CoreRAD is a daemon that sends IPv6 router advertisements (RAs). This project models its decision-making
code in Dafny and proves what that code achieves over all inputs and all runs.

| file | what it models |
|---|---|
| `Netip.dfy`, `AddressLaws.dfy` | addresses as numbers, prefixes as (address, length): containment, masking, overlap, classes |
| `Wrappers.dfy`, `Sorting.dfy` | outcomes; the library's sort and why its input order does not matter |
| `Selection.dfy`, `SelectionLaws.dfy` | automatic routes and prefixes |
| `Rdnss.dfy`, `RdnssLaws.dfy` | automatic DNS server selection |
| `Plugins.dfy` | RAs, plugins, and how plugins fill in an RA |
| `Config.dfy`, `Interfaces.dfy`, `ConfigLaws.dfy` | validation of the configuration and what it guarantees |
| `Advertisement.dfy` | building, sending and withdrawing an RA; handling of messages |
| `Wire.dfy` | from the configuration file to the wire: what the RA of an accepted interface holds |
| `Verify.dfy`, `VerifyLaws.dfy`, `Reports.dfy` | consistency checks against other routers' RAs |
| `SelfConsistency.dfy` | when the RA of an accepted interface contradicts itself |
| `Scheduler.dfy`, `SchedulerLaws.dfy` | when RAs are due |
| `Listener.dfy` | the read loop with its retries |
| `Watcher.dfy`, `WatcherLaws.dfy` | fan-out of link changes to bounded channels |
| `Dialer.dfy` | the session loop: dial, use, release, dial again |

Code that loops or updates state is a method with invariants, proved equal to a function on values or to
an explicit new state; the laws are lemmas about those functions. What the functions decide by small tests and
tables (classes of addresses, flags, states, defaults, limits) is stated again by laws in terms of the inputs and
of plain numbers, so that exchanging two of them is noticed. Kernel answers, dials, reads, errors,
cancelation, random draws, clocks and map iteration order are arbitrary.

Where the code departs from its stated intent, the code is modelled and the exact condition is proved:

- Multicast spacing (`internal/corerad/advertise.go:357-362`) is measured from the previous request, not
  the previous send. The limit of section 6.2.6 of RFC 4861 holds for a run if and only if every request
  that came early is followed by a gap of twice the minimum delay (`RateLimitedIff`); `SameInstant` and
  `Burst` show it failing.
- MTU and captive portal options are compared by pointer (`internal/corerad/verify.go:145`,
  `internal/corerad/verify.go:340`), and a hop limit of zero is not exempt (`internal/corerad/verify.go:101`).
  `SilentIffConsistent` gives exactly the inputs on which this matters; `ReceivedSilent` shows that against
  an RA from the wire every MTU or portal present on both sides is reported. `EqualMTUReported`,
  `EqualPortalReported` and `UnspecifiedHopLimitReported` are inputs on which each quirk shows.
- The automatic minimum interval falls below 3 seconds exactly for maximums from 9 to just under 9.09
  seconds (`AutoMinimumShort`).
- Advertised automatic routes are disjoint if and only if the route table spells each maximal network with a
  usable address in one way (`AutoRoutesDisjoint`); canonical tables do (`CanonicalOneSpelling`), `TwoSpellingsOverlap`
  does not. The coverage laws need no such condition.
- The autoconfiguration setting is back at its original value between sessions if and only if it was off
  at first or no write that disabled it was followed by a failed write that should have enabled it again
  (`SettingKept`, `Dialer.Dial`); without a failed write of that kind it always is. `LosingRun` is a run that
  loses it.
- A dial that fails after its socket was opened leaves the socket open, whether a filter, the control messages,
  the group (`internal/system/dialer.go:313-325`) or the autoconfiguration setting is at fault. Between sessions
  the open sockets are exactly those (`OpenSockets`); `LeakingRun` is a run with one.
- The overlap checks of the configuration do not compare an explicit prefix with what the automatic one
  expands to; `AdvertisedPrefixesDisjoint` and `AutoMeetsExplicit` say when an RA carries both.
  `AcceptedSelfSilent` says exactly when the RA of an accepted interface then contradicts itself, and
  `ExampleContradicts` is an accepted configuration whose RA does.

## Model

| member | source | states |
|---|---|---|
| Netip.OverlapsIsCommonAddress | internal/config/plugin.go:48-53 | prefixes overlap exactly when some address is in both |
| Netip.MaskedSameAddresses | internal/plugin/plugin.go:344-345 | masking gives a canonical prefix with the same addresses |
| Netip.ContainsIsCovers | internal/plugin/plugin.go:616-622 | containing the network address of a prefix no shorter is inclusion of address sets |
| Netip.CommonAddressNests | internal/plugin/plugin.go:616-622 | prefixes with a common address are nested |
| AddressLaws.ContainsInterval | internal/plugin/plugin.go:616-622 | a prefix holds exactly the numbers of its family from its network address on, a power of two of them |
| AddressLaws.ClassPrefixes | internal/plugin/plugin.go:365-376 | link-local is fe80::/10, private fc00::/7, multicast ff00::/8 |
| AddressLaws.GlobalAddresses | internal/plugin/plugin.go:822-826 | the global unicast test holds of all other IPv6 addresses except :: and ::1 |
| AddressLaws.EUI64Form | internal/plugin/plugin.go:871-876 | the EUI-64 test is fffe in the two bytes above the last three |
| AddressLaws.RankOrder | internal/plugin/plugin.go:559-562 | addresses are ordered IPv4 first, then by number |
| Sorting.SortBy | internal/plugin/plugin.go:559-562 | the result is a sorted permutation of the input in which elements with one key keep their order |
| Sorting.StableUnique | internal/plugin/plugin.go:559-562 | being sorted and keeping that order determines the result |
| Sorting.StrictUnique | internal/plugin/plugin.go:559-562 | a strictly increasing list is determined by its set of elements |
| Selection.CoveringRoutes | internal/plugin/plugin.go:567-594 | the loop returns the distinct eligible covering prefixes in order of first appearance |
| Selection.UncoveredPrefixes | internal/plugin/plugin.go:603-614 | the loop keeps, in order, the prefixes not inside a shorter one of the list |
| Selection.CurrentRoutes | internal/plugin/plugin.go:533-565 | which failure is reported when, and otherwise the automatic route list |
| Selection.CurrentPrefixes | internal/plugin/plugin.go:324-361 | the automatic prefix list, or the failure to fetch addresses |
| SelectionLaws.AutoRoutesElements | internal/plugin/plugin.go:533-622 | the list is strictly increasing and holds exactly the maximal prefixes among the eligible covering ones |
| SelectionLaws.AutoRoutesAreMaximal | internal/plugin/plugin.go:552-557 | filtering by coverage and then removing covered prefixes equals taking the maximal prefixes of the whole table and then filtering |
| SelectionLaws.MaximalCommutes | internal/plugin/plugin.go:557-557 | for every set of prefixes, the two filters commute |
| SelectionLaws.UncoveredKeepsCoverage | internal/plugin/plugin.go:603-622 | removing covered prefixes loses no address and is idempotent |
| SelectionLaws.AutoRoutesAdvertised | internal/plugin/plugin.go:533-601 | every advertised route is an eligible route of the table that holds a usable address |
| SelectionLaws.RouteFor | internal/plugin/plugin.go:533-622 | every eligible route with a usable address lies inside an advertised route |
| SelectionLaws.ExactlyOneRoute | internal/plugin/plugin.go:533-622 | for canonical routes each usable address that some eligible route covers is in exactly one advertised route |
| SelectionLaws.AutoRoutesOverlap | internal/plugin/plugin.go:603-622 | two advertised routes share an address exactly when they spell the same network |
| SelectionLaws.SpellingsTogether | internal/plugin/plugin.go:567-622 | another spelling of an advertised network in the table is advertised too |
| SelectionLaws.AutoRoutesDisjoint | internal/plugin/plugin.go:533-622 | advertised routes are pairwise disjoint if and only if the table spells each of its maximal networks that hold a usable address one way |
| SelectionLaws.CanonicalOneSpelling | internal/plugin/plugin.go:533-622 | canonical tables meet that condition |
| SelectionLaws.TwoSpellingsOverlap | internal/system/addresser_linux.go:157-167 | unmasked routes ::/127 and ::1/127 give two overlapping advertised routes |
| SelectionLaws.AutoRoutesInputOrder | internal/plugin/plugin.go:533-565 | the list depends on the sets of routes and usable addresses only, not on order or repetition |
| SelectionLaws.AnySortAgrees | internal/plugin/plugin.go:559-562 | any sort by address alone, stable or not, gives the same list |
| SelectionLaws.AutoPrefixesElements | internal/plugin/plugin.go:324-361 | the prefixes are exactly the canonical networks of the matching usable addresses, strictly increasing |
| SelectionLaws.AutoPrefixesPartition | internal/plugin/plugin.go:324-361 | distinct automatic prefixes share no address |
| SelectionLaws.PrefixFor | internal/plugin/plugin.go:324-361 | every matching usable address is in one of them |
| SelectionLaws.AutoPrefixesInputOrder | internal/plugin/plugin.go:324-361 | the list depends on the set of networks only |
| SelectionLaws.AutoPrefixesExactly | internal/plugin/plugin.go:324-376 | a prefix is listed exactly when it is the network of an IPv6 address outside fe80::/10 with that mask, neither temporary nor tentative |
| SelectionLaws.AutoPrefixesNotLinkLocal | internal/plugin/plugin.go:365-376 | no automatic prefix of length 10 or more shares an address with fe80::/10 |
| SelectionLaws.AutoRoutesExactly | internal/plugin/plugin.go:533-622 | a route is listed exactly when the table has it, it is IPv6 and no single address, holds such an address, and no shorter prefix of the table holds its own |
| SelectionLaws.AutoListsIncrease | internal/plugin/plugin.go:559-562 | both lists increase strictly by number |
| Rdnss.CurrentServer | internal/plugin/plugin.go:749-780 | the loop returns a best admissible address, and fails exactly when there is none |
| Rdnss.BetterIsOrder | internal/plugin/plugin.go:785-852 | the hand-written comparison is the order stable, then private, global, link-local, other, then address |
| Rdnss.PreferredIsOrder | internal/plugin/plugin.go:790-805 | that order is a strict weak order whose ties have the same address |
| Rdnss.BestIsMinimum | internal/plugin/plugin.go:758-772 | the fold gives an element of the list to which no admissible one is preferred |
| Rdnss.BestUnique | internal/plugin/plugin.go:749-780 | lists with the same addresses have the same best address |
| Rdnss.ServerInputOrder | internal/plugin/plugin.go:749-780 | order and repetition do not change the chosen server or the failure |
| RdnssLaws.ServerExactly | internal/plugin/plugin.go:749-876 | in terms of flags, bytes and prefixes: the server is the address of a candidate that none is ahead of, and there is none exactly without a candidate |
| RdnssLaws.LongTermWins | internal/plugin/plugin.go:806-814 | a long-term candidate always wins over others |
| Plugins.ApplyPrefixes | internal/plugin/plugin.go:379-400 | appends one prefix option per prefix, in order, with the lifetimes of the moment |
| Plugins.ApplyRoutes | internal/plugin/plugin.go:625-644 | appends one route option per route, in order |
| Plugins.Apply | internal/plugin/plugin.go:721-746 | every plugin appends its options in place or fails without change, and touches no base field |
| ConfigLaws.LifetimesOrdered | internal/plugin/plugin.go:404-433 | for an accepted prefix the advertised preferred lifetime never exceeds the valid one, at any instant |
| ConfigLaws.CountdownLaws | internal/plugin/plugin.go:411-430 | a deprecated lifetime is the time left or zero, never rises, ends at a fixed instant and stays zero |
| Config.ParseRDNSS | internal/config/plugin.go:322-395 | which server lists are accepted; the result is the configured servers minus ::, strictly increasing, under every map order |
| Config.ScanServers | internal/config/plugin.go:341-375 | accepted exactly when all are native IPv6 addresses and none is repeated, :: included |
| Config.SortedAddrs | internal/config/plugin.go:377-387 | flattening the set in any order and sorting gives its strictly increasing list |
| ConfigLaws.ServersOrderIndependent | internal/config/plugin.go:377-387 | the server list does not depend on the order of configuration |
| Config.ParseDNSSL | internal/config/plugin.go:154-180 | accepted exactly with a valid lifetime and a non-empty list without repeated names |
| Config.CheckOverlaps | internal/config/plugin.go:43-54 | the nested loops find an overlap exactly when two places of the list hold overlapping prefixes |
| Config.ParsePrefixes | internal/config/plugin.go:33-54 | prefix stanzas accepted exactly when each parses and none overlaps another |
| Config.ParseRoutes | internal/config/plugin.go:62-86 | route stanzas accepted exactly when each parses and none overlaps another, wildcards aside |
| Config.ParsePlugins | internal/config/plugin.go:32-151 | which stanzas are accepted, and the plugins in their order |
| ConfigLaws.OverlapMeansCommonAddress | internal/config/plugin.go:43-86 | the overlap checks fail exactly when two prefixes not skipped share an address |
| ConfigLaws.DurationsChosen | internal/config/config.go:254-276 | what unset, auto, infinite, empty and given durations stand for |
| ConfigLaws.SettingsChosen | internal/config/interface.go:81-146 | exactly which intervals, timers, default lifetimes and preferences are accepted, and as what |
| ConfigLaws.MinimumChosen | internal/config/interface.go:186-196 | exactly which minimum intervals are accepted |
| ConfigLaws.AutoMinimumChosen | internal/config/interface.go:174-182 | the automatic minimum is the last whole second within 0.33 of the maximum, or a maximum below 9 seconds |
| ConfigLaws.AcceptedFields | internal/config/interface.go:151-168 | every field of an accepted interface is its own setting or that setting's default |
| ConfigLaws.MonitorFields | internal/config/interface.go:62-74 | monitor mode is exclusive and ignores everything else |
| ConfigLaws.PrefixAcceptedIff | internal/config/plugin.go:187-237 | exactly which prefix stanzas are accepted |
| ConfigLaws.RouteAcceptedIff | internal/config/plugin.go:270-308 | exactly which route stanzas are accepted |
| ConfigLaws.NetAccepted | internal/config/plugin.go:400-426 | a network is accepted exactly when it is IPv6 outside ::ffff:0:0/96 and its number is a multiple of its size |
| ConfigLaws.AcceptedPrefixes | internal/config/plugin.go:43-54 | accepted exactly when no address is in two prefixes; then at most one is automatic |
| ConfigLaws.AcceptedRoutes | internal/config/plugin.go:72-86 | accepted exactly when no address is in two routes other than the wildcard |
| ConfigLaws.AcceptedPrefix | internal/config/plugin.go:187-263 | an accepted prefix is a canonical IPv6 network, not a single address, with ordered non-zero lifetimes, finite when deprecated; :: only as ::/64; network, flags and lifetimes are the configured ones or their defaults |
| ConfigLaws.AcceptedRoute | internal/config/plugin.go:270-319 | an accepted route is a canonical IPv6 network with a non-zero lifetime, finite when deprecated; :: only as ::/0; network, preference and lifetime are the configured ones or their defaults |
| ConfigLaws.AdvertisedPrefixesDisjoint | internal/config/plugin.go:43-54 | prefix options of one RA share an address only between an automatic and an explicit prefix |
| ConfigLaws.AutoMeetsExplicit | internal/plugin/plugin.go:303-321 | they do so exactly when the explicit prefix overlaps the network of a usable address |
| ConfigLaws.PREF64LifetimeLeast | internal/plugin/plugin.go:93-112 | the lifetime is the least multiple of 8 seconds covering three intervals, up to the largest one |
| Interfaces.ParseInterface | internal/config/interface.go:61-169 | which stanzas are accepted and the interface they give |
| Interfaces.ParseInterfaces | internal/config/interface.go:25-57 | one interface per name, if the stanza identifies its names one way |
| Interfaces.Parse | internal/config/config.go:207-252 | accepted exactly when there is a stanza, a given debug address resolves, all stanzas are accepted and no name appears twice; debug settings are kept only with an address |
| Interfaces.ParseStanzas | internal/config/config.go:230-249 | the loop accepts exactly when all stanzas are accepted and no name appears twice |
| ConfigLaws.AcceptedSound | internal/config/interface.go:81-139 | ranges of every accepted interface: intervals with minimum at most maximum, timers, hop limit, default lifetime |
| ConfigLaws.MinIntervalRange | internal/config/interface.go:173-197 | an accepted minimum is from 2 seconds to the maximum; an explicit one from 3 seconds to three quarters of it |
| ConfigLaws.AutoMinimumShort | internal/config/interface.go:174-194 | the automatic minimum is below the 3 seconds required of explicit ones exactly on a range just above 9 seconds |
| ConfigLaws.AcceptedDelays | internal/corerad/advertise.go:479-501 | for accepted interfaces the delay is always defined, in whole seconds and within half a second of the interval |
| ConfigLaws.AcceptedLifetime | internal/config/interface.go:201-213 | the router lifetime of every RA of an accepted interface is 0 or in [maximum interval, 9000 s], and positive only while forwarding |
| Advertisement.BuildRouterAdvertisement | internal/config/config.go:164-195 | the plugin loop builds the base fields and the joined options, or fails with the first plugin failure |
| Advertisement.OptionsInOrder | internal/config/config.go:175-179 | each plugin's options stand together, in plugin order, and nothing else is there |
| Advertisement.BuiltIffAllSucceed | internal/config/config.go:175-179 | the RA is built exactly when every plugin succeeds |
| Advertisement.FailureStays | internal/config/config.go:175-179 | the first failing plugin decides the error |
| Advertisement.LifetimeAdvertised | internal/config/config.go:181-192 | the lifetime is suppressed exactly when a misconfiguration is reported, and positive only while forwarding |
| Wire.AcceptedCarries | internal/config/plugin.go:32-151 | an accepted interface has the plugin of each of its stanzas |
| Wire.BaseOnWire | internal/config/config.go:165-192 | every base field of the RA is its own setting of the stanza, or that setting's default |
| Wire.LifetimesLeft | internal/plugin/plugin.go:402-433 | each lifetime is advertised as configured or, if deprecated, as its own time left |
| Wire.PrefixOnWire | internal/plugin/plugin.go:303-433 | a prefix stanza contributes exactly the options of the networks it asks for, with its own flags and lifetimes, counted down if deprecated |
| Wire.RouteOnWire | internal/plugin/plugin.go:506-658 | a route stanza contributes exactly the options of the networks it asks for, with its own preference and lifetime, counted down if deprecated |
| Wire.ServersOnWire | internal/plugin/plugin.go:721-747 | a server stanza is on the wire with its lifetime and its servers in order, after the best address if it lists :: or none |
| Wire.NamesOnWire | internal/plugin/plugin.go:150-157 | a search list stanza is on the wire with its lifetime and names |
| Wire.SinglesOnWire | internal/config/plugin.go:108-132 | MTU, hardware address and captive portal are on the wire when configured |
| Wire.PREF64OnWire | internal/config/plugin.go:134-148 | a translation prefix is on the wire, 64:ff9b::/96 by default |
| Wire.NothingElse | internal/config/config.go:175-179 | prefix and route options come from prefix and route stanzas only |
| Advertisement.BuildOwnRA | internal/corerad/advertise.go:412-438 | our RA, or the failure to read the forwarding state or of a plugin |
| Advertisement.Handle | internal/corerad/advertise.go:233-296 | who is answered, that the reported inconsistencies are those of the comparison with our RA, and that it fails exactly when our RA is needed and cannot be built |
| Advertisement.Send | internal/corerad/advertise.go:391-409 | nothing goes to a group in unicast-only mode; otherwise the interface's RA goes to the destination, or the failure to build or to write it is reported |
| Advertisement.Shutdown | internal/corerad/advertise.go:441-461 | the final RA is sent exactly when the process ends for good and groups are allowed; it has router lifetime 0 and is otherwise the RA that would be sent anyway |
| Verify.PickLoop | internal/corerad/verify.go:350-359 | the loop keeps the options of a kind, in order |
| Verify.PickFirstLoop | internal/corerad/verify.go:363-371 | the loop finds the first option of a kind, if any |
| Verify.CheckRAs | internal/corerad/verify.go:99-122 | the problems of the base fields |
| Verify.CheckMTUs | internal/corerad/verify.go:136-152 | a problem exactly when both have an MTU and the first ones are distinct objects |
| Verify.CheckCaptivePortal | internal/corerad/verify.go:331-347 | a problem exactly when both have a portal and the first ones are distinct objects |
| Verify.CheckPrefixes | internal/corerad/verify.go:156-189 | the nested loops report, in order, the differences of every pair with the same prefix |
| Verify.CheckRoutes | internal/corerad/verify.go:193-228 | the nested loops report, in order, the lifetime differences of every pair with the same route and preference |
| Verify.CheckRDNSS | internal/corerad/verify.go:232-275 | counts, lifetimes and servers of corresponding options |
| Verify.CheckDNSSL | internal/corerad/verify.go:279-327 | counts, lifetimes and names of corresponding options |
| Verify.VerifyRAs | internal/corerad/verify.go:83-96 | all problems, in order |
| VerifyLaws.CrossByColumns | internal/corerad/verify.go:168-186 | the nested loops can be interchanged, up to the order of the problems |
| VerifyLaws.CrossMirrored | internal/corerad/verify.go:168-225 | exchanging the sides of the nested loops permutes the problems, with want and got exchanged |
| VerifyLaws.ListsMirrored | internal/corerad/verify.go:232-327 | exchanging the sides of the list checks exchanges want and got in every problem, in place |
| VerifyLaws.RAProblemsMirrored | internal/corerad/verify.go:83-347 | exchanging the RAs permutes all problems, each with the same field and details and with want and got exchanged |
| VerifyLaws.CrossReports | internal/corerad/verify.go:168-225 | a problem is reported exactly when some pair reports it |
| VerifyLaws.PrefixesSilent | internal/corerad/verify.go:156-189 | no prefix problem exactly when all options with the same prefix agree on both lifetimes |
| VerifyLaws.RoutesSilent | internal/corerad/verify.go:193-228 | no route problem exactly when all options with the same route and preference agree on the lifetime |
| VerifyLaws.ListsSilent | internal/corerad/verify.go:232-327 | no list problem exactly when one side has no list or both are equal |
| VerifyLaws.SilentIffConsistent | internal/corerad/verify.go:83-371 | nothing is reported exactly for consistent RAs outside the three listed quirks |
| VerifyLaws.ReceivedSilent | internal/corerad/advertise.go:256-268 | for an RA from the wire: exactly for consistent RAs with no MTU and no portal on both sides and no one-sided hop limit |
| VerifyLaws.SelfSilent | internal/corerad/verify.go:83-371 | an RA compared with itself is reported exactly when it gives one prefix, or one route and preference, two lifetimes |
| Reports.Reported | internal/corerad/verify.go:83-347 | a problem is reported if and only if its own field differs, with the details, the wanted and the got value of the options that differ |
| VerifyLaws.EqualMTUReported | internal/corerad/verify.go:145-151 | two equal MTU options in distinct objects are consistent and reported |
| VerifyLaws.EqualPortalReported | internal/corerad/verify.go:340-346 | two equal captive portals in distinct objects are consistent and reported |
| VerifyLaws.UnspecifiedHopLimitReported | internal/corerad/verify.go:101-103 | a hop limit of zero on one side only is consistent and reported |
| SelfConsistency.AcceptedReady | internal/plugin/plugin.go:404-411 | validation leaves one panic: an accepted interface is ready to build its RA if and only if there is an epoch or nothing is deprecated |
| SelfConsistency.PrefixesAgreeIff | internal/plugin/plugin.go:379-400 | for every plugin list, the prefix options of one RA agree exactly when plugins that advertise one network give it the same lifetimes |
| SelfConsistency.RoutesAgreeIff | internal/plugin/plugin.go:625-644 | for every plugin list, the route options of one RA agree exactly when plugins that advertise one route with one preference give it the same lifetime |
| SelfConsistency.AcceptedSelfSilent | internal/config/plugin.go:43-86 | an accepted interface's RA compared with itself is silent if and only if automatic stanzas match the other stanzas they expand to |
| SelfConsistency.ExplicitSelfSilent | internal/config/plugin.go:43-86 | without automatic stanzas it always is |
| SelfConsistency.ExampleContradicts | internal/config/plugin.go:43-54 | stanzas ::/64 and 0:0:0:1::/64 with different lifetimes are accepted together, and the RA carries one prefix with two lifetimes |
| Scheduler.Schedule | internal/corerad/advertise.go:300-369 | one send per request, to its destination; unicast within [0, 500 ms); multicast due times as specified |
| Scheduler.AnswerKind | internal/corerad/advertise.go:241-251 | a solicitation from :: asks for a multicast RA, any other for a unicast one to its source |
| AddressLaws.Groups | internal/corerad/advertise.go:343-355 | groups are ff00::/8, and all nodes are ff02::1 |
| Scheduler.Generate | internal/corerad/advertise.go:205-230 | unsolicited requests start at once and are spaced by the drawn delays |
| SchedulerLaws.DueBounds | internal/corerad/advertise.go:355-367 | a due time is at least the delay after the previous request and at most the delay after its own |
| SchedulerLaws.DueOrder | internal/corerad/advertise.go:355-367 | due times keep request order and none is within the delay of the start |
| SchedulerLaws.RateLimitedIff | internal/corerad/advertise.go:355-367 | due times are pairwise at least the delay apart if and only if every early request is followed by a gap of twice the delay |
| SchedulerLaws.WideRequestsLimited | internal/corerad/advertise.go:355-367 | requests twice the delay apart always meet the limit |
| SchedulerLaws.TwoApart | internal/corerad/advertise.go:355-367 | with requests the delay apart, sends two positions apart are the delay apart |
| SchedulerLaws.SameInstant | internal/corerad/advertise.go:355-367 | requests exactly the delay apart can put two sends at one instant |
| SchedulerLaws.Burst | internal/corerad/advertise.go:355-367 | requests made together are all due together |
| SchedulerLaws.MulticastDelayBounds | internal/corerad/advertise.go:479-501 | delays are whole seconds, near the interval, inside it for whole-second bounds, the first three at most 16 s |
| SchedulerLaws.MulticastDelayGrows | internal/corerad/advertise.go:479-501 | a larger draw never gives a shorter delay |
| SchedulerLaws.MulticastDelayReaches | internal/corerad/advertise.go:484-493 | every whole second strictly inside the interval is the delay of some draw, the cap aside |
| SchedulerLaws.GeneratorLimited | internal/corerad/advertise.go:205-230 | generated requests alone meet the limit when the minimum interval is at least twice the delay and one of them is in whole seconds |
| SchedulerLaws.Unsolicited | internal/corerad/advertise.go:145-171 | generator and scheduler together: with a minimum of 6 s no two RAs are due less than 3 s apart |
| Listener.ReceiveRetry | internal/corerad/listener.go:112-155 | at most five reads; after each timed-out read a sleep of 50 ms times its place; how each outcome relates to the reads |
| Listener.BackoffBounded | internal/corerad/listener.go:130-138 | one call sleeps 500 ms at most |
| Listener.Listen | internal/corerad/listener.go:63-108 | exactly the messages with hop limit 255 are delivered, in order, until the first five bad reads in a row, a fault or a handler error |
| Netstate.Process | internal/netstate/watcher_linux.go:72-97 | per interface, the recognized changes in message order, and no entry without one |
| NetstateLaws.ChangeIsBit | internal/netstate/watcher_linux.go:99-120 | which bit stands for which state |
| NetstateLaws.WantsBit | internal/netstate/watcher.go:135-139 | a mask covers a change exactly when they have a bit in common |
| NetstateLaws.MatchingIsTold | internal/netstate/watcher_linux.go:72-120 | over all message lists, the changes that match a mask are the bits of the reported states that it has, in order |
| NetstateLaws.QueueTold | internal/netstate/watcher.go:118-151 | with room, a batch of messages adds exactly those to a queue |
| NetstateLaws.OneBitTold | internal/netstate/watcher_linux.go:99-120 | a mask of one bit gets one change per message of its state and none for others |
| NetstateLaws.AllBitsTold | internal/netstate/change.go:31-40 | the mask of all seven bits gets one change per recognized message |
| NetstateLaws.LinkDownQueued | internal/corerad/server.go:88-88 | the server's subscription gets one link-down change per message of its interface that reports the state down |
| Netstate.Watcher.Subscribe | internal/netstate/watcher.go:66-82 | a new open empty channel joins the end of its bucket; all others keep their place |
| Netstate.Watcher.Notify | internal/netstate/watcher.go:118-151 | under every iteration order each queue gets, in order, the matching changes of its interface while it has room |
| Netstate.Watcher.Tell | internal/netstate/watcher.go:131-149 | one change reaches exactly the subscribers of the interface whose mask covers it |
| Netstate.Watcher.CloseAll | internal/netstate/watcher.go:97-110 | closes every registered channel, none twice |
| Netstate.Watcher.Serve | internal/netstate/watcher.go:66-151 | over every run each bucket grows by one channel per subscription to it, whose queue then follows the specification from that subscription on |
| Netstate.Watcher.Watch | internal/netstate/watcher.go:91-114 | over every run: queues follow the specification, slots never change, every subscription during the run registers one channel at the end of its bucket, all channels registered before the end are closed, and nothing is sent to a closed one; a second call panics and changes nothing |
| Netstate.PlacedAppend | internal/netstate/watcher.go:72-79 | appending keeps every channel in exactly one bucket position |
| NetstateLaws.RunAccounts | internal/netstate/watcher.go:118-151 | over every run each matching change is taken, queued or dropped on a full channel; without drops nothing is missing |
| NetstateLaws.RunInOrder | internal/netstate/watcher.go:118-151 | over every run a subscriber sees a subsequence, in order, of the matching changes |
| NetstateLaws.DeliverCounts | internal/netstate/watcher.go:142-148 | a change is lost only when all 8 places are taken |
| NetstateLaws.RoomMeansNoLoss | internal/netstate/watcher.go:142-148 | with room for all matching changes none is lost |
| Dialer.Dialer.SetAutoconf | internal/system/dialer.go:253-268 | the setting is read and then disabled by one write; a denied write is tolerated, any other failure leaves the setting alone |
| Dialer.Dialer.DialNDP | internal/system/dialer.go:300-328 | a failure after the socket was opened leaves it open |
| Dialer.Dialer.DialFunc | internal/system/dialer.go:196-249 | a context is acquired between sessions only, holding the setting as it was; a failed dial leaves the setting and the contexts as they were |
| Dialer.Dialer.Done | internal/system/dialer.go:224-240 | the context is released and, if a setting was saved, it is written back exactly once; the setting changes exactly when that write succeeds |
| Dialer.Dialer.Retry | internal/system/dialer.go:164-191 | one dial per attempt after the sleep of that attempt; it times out only after all of them |
| Dialer.Dialer.Attempt | internal/system/dialer.go:164-185 | one sleep and then one dial, or an interrupted sleep and none |
| Dialer.Dialer.Init | internal/system/dialer.go:132-192 | dials the first time and retries recoverable errors; it gives up only when the history calls for it; at most 51 dials and 130.5 s of sleep |
| Dialer.Dialer.Use | internal/system/dialer.go:107-107 | the user's function runs with a live context and its result is what the loop goes by |
| Dialer.Dialer.Dial | internal/system/dialer.go:89-125 | it ends exactly as its history calls for, after at least one dial and otherwise one session per turn; no context is live, the setting is the original one if and only if the history does not lose it, and the open sockets are its leaks |
| Dialer.AfterReturn | internal/system/dialer.go:142-161 | which errors of the user's function end the loop, and how; only after the others is there another dial |
| DialerLaws.FinishedBecause | internal/system/dialer.go:97-122 | Dial finishes only because the user's function returned nil or because of cancelation, with no dial since |
| DialerLaws.FailedBecause | internal/system/dialer.go:97-192 | Dial fails only because of a failed cleanup, an error it may not go on after, or fifty dials since a recoverable one |
| DialerLaws.RetriedSince | internal/system/dialer.go:164-189 | the retries are the dials since a recoverable error of the user's function or of the first dial |
| Dialer.SettingKept | internal/system/dialer.go:253-289 | in every legal history, between sessions the setting is the original one if and only if it was off at first or no disabling write was followed by a failed enabling one |
| Dialer.NoFailureNoLoss | internal/system/dialer.go:270-289 | without a failed enabling write nothing is lost |
| Dialer.OpenSockets | internal/system/dialer.go:207-221 | in every legal history the open sockets are that of the dial or session under way and those of dials that failed after opening one |
| Dialer.RetriesSleep | internal/system/dialer.go:164-181 | the 50 backoff delays add up to 130.5 s |
| DialerLaws.SavedIsOriginal | internal/system/dialer.go:254-259 | every value saved for restoring is the original one unless it was lost before, so dialing again never saves the dialer's own setting |
| DialerLaws.OneLive | internal/system/dialer.go:97-124 | in every legal history at most one context is live at any time |
| DialerLaws.ReleasedOnce | internal/system/dialer.go:107-115 | each context is acquired once and released once |
| DialerLaws.ReleasedNext | internal/system/dialer.go:107-115 | an acquired context goes to the user's function, is released right after, and then the value read before it is written back |
| DialerLaws.LosingRun | internal/system/dialer.go:270-289 | a legal history that loses the setting |
| DialerLaws.LeakingRun | internal/system/dialer.go:313-325 | a legal history that leaves a socket open |

## Left out

- Sockets, netlink, sysctl files, ICMP filters and wire encoding: reads, dials and writes have arbitrary outcomes instead.
- TOML decoding and the parsing of address, prefix and duration texts: the model starts from parsed values. Zones of configured server addresses are not modelled.
- IPv4-mapped IPv6 addresses of interfaces: the addresser rejects them (`internal/system/addresser_linux.go:67`), so the address classes are those of native IPv6. Prefix lengths from the kernel are at most the address length.
- Go's zero values that stand for "none" are `None`; the zero time is an absent epoch, on which the source panics when a deprecated lifetime is counted down; building an RA requires that this cannot happen (`SelfConsistency.AcceptedReady`).
- Scheduler.Schedule: treats the clock readings of one loop iteration as one instant, and a request as accepted when it is pushed; due times are scheduled times, not times of writing.
- Liveness and deadlock freedom of the goroutines, and the shutdown RA being the last one on the wire.
- Netstate.Watcher.Notify: a subscriber takes items between notifications, not during one; the lock of the watcher makes the other steps atomic.
- Dialer.Dialer.Dial: nothing else writes the autoconfiguration setting; a failed write has no effect. The loop may run forever, so it is stated for every number of turns.
- Identity of option objects is kept only where verify.go compares it, as a number given by the environment.
- Overflow of 64-bit durations: durations are unbounded integers; accepted intervals and lifetimes are far below the limit.
- Floating point of 0.33 * max: the product truncates to the exact value or one nanosecond below it. 0.75 * max is exact in the accepted range.
- Metrics, logging, problem message texts, `String` methods, `internal/crhttp`, monitor mode reporting and the wiring of the server.
