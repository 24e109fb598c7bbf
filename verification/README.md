# A verified model of the CKB node discovery system

The system watches a peer-to-peer network. *Dialers* crawl it and publish what they find on MQTT.
*marci* turns those reports into keys of a Redis store, with times to live that say for how long a
peer counts as online or unknown, and asks the dialers to dial the peers it has heard of.
*exposed* answers HTTP queries from the same store. This project models the three processes and
proves what they do together.

How to read it, from the bottom up:

* `Redis`, `Connection`: the Redis commands used, on one key and on a whole store, with expiry times
  and a clock. `Keys`: the key formats, their glob patterns, and how listings are decoded.
* `Arms`: what each kind of report makes marci do, as the list of commands it issues and as what
  each key holds afterwards, proved equal. `Leases`, `Witnesses` and `Facts` define what the keys
  should mean from a peer's history of reports alone (no store, no commands) and prove that they do.
  `Store` lifts all of it to the string-keyed store shared by all peers, for any interleaving.
* `Geo`: the IP lookups and their memo, with a service that may answer differently every time.
  `Marci`: the loop itself, a class over a connection and a memo, whose methods issue the commands
  one by one; its `Valid()` says the store and the memo are the outcome of everything that arrived.
* `Interleaving`: marci one Redis command at a time, with time passing between any two commands.
  `OverTime` carries the lease theorems down to that level, whatever the timing; `FactsOverTime` does the
  same for the keys without a time to live; `Simulation` shows the instant model to be part of it.
  `Race` is about a query that lists while marci works.
* `Exposed`, `Version`, `PageCache`: the queries, the version-shortening regular expression as a
  backtracking matcher, and the cache shared by concurrent requests under three mutexes.
  `Deployment` joins marci and the queries on one store.
* `Multiaddr`, `Dialer`, `ClosedSystem`: addresses and their text, the dialers, and the three
  processes with their messages, delivered at least once (MQTT 5.0, section 4.3.2) in any order.
  `Propagation` shows that a discovery can always come through to a dial.
* `Compress`: the framing of compressed messages around an abstract codec.

Time is in milliseconds; a key with expiry `e` is visible at `t` exactly when `t < e`. `Env.Sound()`
collects the assumptions on the deployment: positive timeouts, a positive witness threshold, and an
endpoint encoding that decodes what it encoded.

Three places where the code is not what its text suggests, modelled as the code has them: a peer
logged as "upgraded into online" gets the unknown key (marci/src/main.rs:372-373); the ex timeout is
read from the environment but the ex key lives by the default timeout (marci/src/main.rs:197-199, 339);
and the compression flag is read from its top bit alone, whatever the other seven hold
(src/compress.rs:103-105).

## Model

| member | source | states |
|---|---|---|
| Types.NetworkRoundTrip | types/src/lib.rs:11-38 | both printed spellings of a network are read back as that network |
| Types.Spellings | types/src/lib.rs:11-38 | the four spellings read as each of Mirana and Pudge, the two read as Dev, and both printed names of each |
| Types.OtherSpellings | types/src/lib.rs:17 | every other text is read as Mirana |
| Types.Loopbacks | src/network.rs:106 | loopback is 127.0.0.0/8 and ::1, and nothing else |
| Numerals.ParsePrinted | marci/src/main.rs:353 | a printed unsigned count reads back as itself |
| Numerals.DecimalText | marci/src/main.rs:353 | the printed text is decimal: a single digit below ten, else the text of a tenth and the last digit |
| Base58.DecodeEncode | src/network.rs:73-76 | the base58 text of a peer id reads back to the same bytes, leading zero bytes included |
| Base58.Alphabet | src/network.rs:75 | the 58 characters, in order |
| Base58.EncodeMeaning | src/network.rs:75 | the text of some bytes is a one for each leading zero byte and then, starting with another character, the base-58 digits of the number the other bytes are |
| Keys.FormatInjective | marci/src/main.rs:23-118 | two key formats give one key only for the same format and the same peer, for all id strings |
| Keys.StatusKeys | marci/src/main.rs:23-52 | the texts of the lease, witness and address keys and of the service time stamp key |
| Keys.InfoKeys | marci/src/main.rs:54-112 | the texts of the keys of the facts about a peer |
| Keys.NetworkKeys | marci/src/main.rs:114-118 | the texts of the network keys and of the listing patterns |
| Keys.FormatIsNotLastUpdate | marci/src/main.rs:406 | no peer's key is the service time stamp, whatever the id |
| Redis.GlobPrefixStarSuffix | marci/src/main.rs:411 | a prefix-star-suffix pattern matches exactly the strings with that prefix and, after it, that suffix |
| Redis.GlobSpecials | exposed/src/main.rs:83-86 | what a question mark and a backslash match, in front of any pattern |
| Redis.GlobClass | exposed/src/main.rs:83-86 | a class of characters, plain or negated, matches one character in it, or one not in it |
| Redis.GlobRange | exposed/src/main.rs:83-86 | a range matches one character between its two ends, in either order |
| Keys.PatternMatchesFamily | exposed/src/main.rs:292-312 | on every string, a listing pattern matches exactly the keys of its family |
| Keys.DecodeFormat | exposed/src/main.rs:258-268 | decoding a listed key gives its peer if and only if the id has no dot; the indexing of the network decoder is in range |
| Keys.ListingDecodes | exposed/src/main.rs:308-315 | listing and decoding a family yields exactly the ids with a live key in it, each once |
| Connection.RedisConnection.Set | marci/src/main.rs:352 | SET stores the text and clears any time to live |
| Connection.RedisConnection.SetEx | marci/src/main.rs:339-341 | SETEX stores the text until the time to live has passed |
| Connection.RedisConnection.Expire | marci/src/main.rs:337 | EXPIRE renews a live key and does nothing for a missing one |
| Connection.RedisConnection.Del | marci/src/main.rs:354 | DEL removes the key |
| Connection.RedisConnection.SAdd | marci/src/main.rs:385-388 | SADD adds a member once, keeps a time to live, and leaves a string alone |
| Connection.RedisConnection.Get | marci/src/main.rs:336 | GET answers with live text only; missing, expired and set-valued keys are alike |
| Connection.RedisConnection.SCard | marci/src/main.rs:369 | SCARD counts a live set, zero otherwise |
| Connection.RedisConnection.SMembers | marci/src/main.rs:420 | every member once, in an order of the server's choosing |
| Connection.RedisConnection.Keys | marci/src/main.rs:411 | every live key matching the pattern, once, in an order of the server's choosing |
| Redis.ReadingMeaning | marci/src/main.rs:336 | a stored entry is seen exactly before its expiry, by the command for its type |
| Redis.CommandMeaning | marci/src/main.rs:337-354 | what a reader sees of a key at any later time after SET, SETEX, EXPIRE and DEL |
| Redis.AddMeaning | marci/src/main.rs:385-388 | what a reader sees of a key at any later time after SADD |
| Arms.OnlineEffect | marci/src/main.rs:330-357 | what the online arm's commands leave under every key of the peer |
| Arms.UnknownEffect | marci/src/main.rs:358-379 | what the unknown arm's commands leave under every key of the peer |
| Arms.ReachableEffect | marci/src/main.rs:380-407 | what the reachable arm's commands leave under every key of the peer |
| Arms.HandleIsNext | marci/src/main.rs:328-407 | issuing any arm's commands in order equals the key-by-key account of that report |
| Leases.OnlineLease | marci/src/main.rs:336-342 | over every timed history: the online key is live exactly when the unbroken suffix of online and unknown reports contains a non-ex online report, and holds the version of the first one |
| Leases.ExLease | marci/src/main.rs:338-339 | over every timed history: the ex key is live exactly when the last ex report that found online dead is younger than the timeout, and holds its version |
| Witnesses.SinceSnoc | marci/src/main.rs:369-385 | how one more report changes the set of witnesses: cleared by an upgrade, widened by a reachable report, else the same |
| Witnesses.WitnessSet | marci/src/main.rs:369-385 | the reachable key holds exactly the distinct reporters since the last upgrade |
| Witnesses.WitnessConservation | marci/src/main.rs:369-374 | threshold times upgrades plus witnesses held never exceeds the number of reachable reports |
| Witnesses.RedeliveryAddsNothing | marci/src/main.rs:385 | a reachable report delivered again before an upgrade changes no witness and no status key |
| Witnesses.UnknownLease | marci/src/main.rs:371-374 | the unknown key is live exactly when an upgrade less than its timeout ago was followed by no online report |
| Witnesses.NeverOnlineAndUnknown | marci/src/main.rs:354-376 | between arms, a peer's online and unknown keys are never both live |
| Facts.StoredNetwork | marci/src/main.rs:390-391 | the network key holds the network of the latest reachable report |
| Facts.AddressSet | marci/src/main.rs:387-389 | the address key holds the encoded endpoints of every reachable report so far, none forgotten |
| Facts.KnownAddressesAre | marci/src/main.rs:387-389 | a text is in that set exactly when it encodes an endpoint of some reachable report |
| Facts.NetworkFiling | marci/src/main.rs:384-386 | a peer is filed under a network exactly when some reachable report gave that network |
| Facts.VouchedFor | marci/src/main.rs:369-386 | a peer with witnesses or a standing upgrade has been reported reachable under some network |
| Facts.RunTyped | marci/src/main.rs:328-407 | over every run, sets are stored under the witness and address keys and text under all others |
| Facts.NoTypeErrors | marci/src/main.rs:328-407 | no writing command of any run finds a value of the wrong type |
| Facts.NoReadErrors | marci/src/main.rs:336-422 | after any run and any part of the next arm, every read of either program, of any peer's key at any time, finds a value of its type or none |
| Facts.GeoFromOneSource | marci/src/main.rs:345-350 | country, city, region and position always come from one single answer |
| Facts.LastSighting | marci/src/main.rs:353 | the last sighting is the time of the latest report of any kind, in whole seconds |
| Facts.FullKey | marci/src/main.rs:352 | the fullness key says what the latest online report said |
| Facts.OnlineAddress | marci/src/main.rs:343-344 | the online address is the first of the latest online report that has any, for one timeout |
| Store.ExecAllRefines | marci/src/main.rs:23-118 | commands on one peer's keys act on that peer's record and on nobody else's |
| Store.Locality | marci/src/main.rs:328-443 | after any interleaving of queues and timers a peer's keys are what its own reports alone would leave |
| Store.StoreKeys | marci/src/main.rs:23-118 | every key a run leaves is some peer's or the service time stamp |
| Store.InterleavingIrrelevant | marci/src/main.rs:328-443 | runs that give each peer the same reports in the same order leave the same store, time stamp apart |
| Store.EventsCommute | marci/src/main.rs:328-443 | adjacent events commute unless they report on the same peer |
| Store.ServiceStamp | marci/src/main.rs:405-440 | the service time stamp is the time of the latest reachable report or timer, in whole seconds, and absent before any |
| Store.OnlineKeyMeaning | marci/src/main.rs:336-342 | the online lease theorem, read off the string key in the shared store |
| Store.Online2KeyMeaning | marci/src/main.rs:338-339 | the ex lease theorem, read off the string key in the shared store |
| Store.UnknownKeyMeaning | marci/src/main.rs:371-374 | the unknown lease theorem and exclusion, read off the string keys in the shared store |
| Store.ReachableKeyMeaning | marci/src/main.rs:369-385 | the witness set and its conservation, read off the string key in the shared store |
| Geo.LookupFaithful | marci/src/main.rs:154-173 | a lookup keeps every remembered entry equal to the one success about its address |
| Geo.LookupFirstMeaning | marci/src/main.rs:175-182 | whatever the service replies: the earlier addresses were each asked about and refused, the deciding one was remembered or answered now, only that answer is added, and no answer means all were refused |
| Geo.LookupFirstFaithful | marci/src/main.rs:154-182 | asking about several addresses keeps the memo faithful and forgets nothing |
| Geo.OnlineAsks | marci/src/main.rs:343-345 | an online report is answered for its first address: from what is remembered, else by the service, which is then remembered |
| Geo.ReachableAsks | marci/src/main.rs:394-397 | a reachable report asks about its addresses in turn, exactly while the country is missing or empty |
| Geo.OthersAskNobody | marci/src/main.rs:358-441 | unknown reports and the timer ask nobody |
| Geo.MemoOverRuns | marci/src/main.rs:154-182 | over every run of the loop the memo holds each address's one success, and every answer any report got under an address that report carried |
| Geo.MemoNeverChanges | marci/src/main.rs:157-164 | an entry, once remembered, is the same at every later point of the run |
| Geo.GeoFieldsAgree | marci/src/main.rs:345-403 | at every arm boundary the four geo fields are all absent, or those of what is remembered about one address that a report of this very peer carried |
| Geo.MachineLocality | marci/src/main.rs:154-407 | with a steady service, a peer's keys are what they would be had no other peer existed, memo included |
| Marci.IpInfoCache.LookupIpInfo | marci/src/main.rs:154-173 | the memoised lookup, on the static map |
| Marci.IpInfoCache.QueryByReachable | marci/src/main.rs:175-182 | the loop over addresses stops at the first that succeeds, after being refused all before it |
| Marci.Marci.WriteLease | marci/src/main.rs:336-342 | refresh a live online key, else open the lease the report calls for |
| Marci.Marci.WriteAddress | marci/src/main.rs:343-351 | the address and geo writes of an online report |
| Marci.Marci.HandleOnline | marci/src/main.rs:330-357 | the online arm, command by command, keeps store and memo the outcome of all arrivals |
| Marci.Marci.RefreshOrUpgrade | marci/src/main.rs:364-376 | refresh, or spend enough witnesses on an upgrade, or do nothing |
| Marci.Marci.HandleUnknown | marci/src/main.rs:358-379 | the unknown arm keeps store and memo the outcome of all arrivals |
| Marci.Marci.WriteAddresses | marci/src/main.rs:387-389 | the address loop of a reachable report |
| Marci.Marci.WriteMissingGeo | marci/src/main.rs:394-403 | the geo fields are asked for only while the country is missing or empty |
| Marci.Marci.HandleReachable | marci/src/main.rs:380-407 | the reachable arm keeps store and memo the outcome of all arrivals |
| Marci.Marci.Decoded | marci/src/main.rs:421-429 | the endpoints the stored texts decode to, one for each text that decodes, in order; others are dropped |
| Marci.Marci.Announce | marci/src/main.rs:418-436 | one message per listed id, in order, with that peer's network and its stored endpoints, each member of the set read once |
| Marci.Marci.Broadcast | marci/src/main.rs:410-441 | one message for every peer with a live witness key and for nobody else, when ids have no dot |
| Interleaving.ActHolds | marci/src/main.rs:330-407 | every single command of every arm keeps the invariant of leases, sighting and exclusion |
| Interleaving.StatusExclusion | marci/src/main.rs:336-354 | at command granularity, online and unknown are both live only while the online arm of that peer is between its lease and its delete |
| Interleaving.DisplayFreshness | marci/src/main.rs:336-378 | between arms, a live status implies a last sighting within that status's timeout, to the second |
| Interleaving.FinishIsHandle | marci/src/main.rs:328-407 | an arm run command by command with no time passing leaves what the arm as one step leaves |
| Interleaving.ServiceStamps | marci/src/main.rs:405-440 | marci's own command is the only one that touches the service time stamp, and sets it to its own time in whole seconds |
| Simulation.EveryHistoryRuns | marci/src/main.rs:328-443 | every timed history of events, each handled at one instant, is a run at the granularity of commands that ends with the same keys |
| OverTime.ArmEffect | marci/src/main.rs:330-407 | what a whole arm leaves under the status keys, with every command at its own time |
| OverTime.ArmAgrees | marci/src/main.rs:336-376 | an arm over time leaves the status keys as one at a single instant does, if and only if no lease ends between being found live and being refreshed |
| OverTime.LapseLeavesNothing | marci/src/main.rs:336-354 | a lease that ends in between leaves no online key, and after an online report no unknown key either |
| OverTime.LapseHappens | marci/src/main.rs:364-366 | a history and timing in which that happens |
| OverTime.HistoryStands | marci/src/main.rs:328-407 | whatever the timing, arms leave the status keys as a history of instants does: reports whose arms lapsed are not in it, and a lapsed online report ends the unknown lease |
| OverTime.RunFollows | marci/src/main.rs:328-443 | over every run at the granularity of commands, a peer's record is what its own arms make of it |
| OverTime.StatusOverTime | marci/src/main.rs:336-385 | over every run at the granularity of commands, whatever the timing, the online, ex, unknown and witness keys mean what that history says |
| FactsOverTime.ArmLasts | marci/src/main.rs:343-403 | whenever its commands run, a whole arm leaves network, filing, addresses, geo fields and fullness as the same arm at any one instant |
| FactsOverTime.FactsStand | marci/src/main.rs:328-407 | over every run at the granularity of commands, network, filing, addresses and geo fields are those of the peer's reports |
| Race.MissedExactly | exposed/src/main.rs:310-324 | while marci goes on working: a peer not listed online, with a status the whole time and no ex lease, is missed by all three listings if and only if its online arm writes the lease after the first and the unknown lease has ended when the last is made |
| Race.RaceHappens | exposed/src/main.rs:310-324 | a run in which such a peer is missed |
| Version.ShortenMeaning | exposed/src/main.rs:337-345 | on every text: cut at the least place with a non-numeric character and no newline before or after it; else the whole text |
| Version.ShortenIsNumericPrefix | exposed/src/main.rs:337-345 | without newlines, the longest prefix of digits and dots |
| Version.ShortenShortens | exposed/src/main.rs:337-345 | the short version is what stands before the first place to cut, the whole text when there is none |
| Exposed.Service.List | exposed/src/main.rs:292-315 | the ids a family's live keys stand for, each once |
| Exposed.Service.GetPeerInfo | exposed/src/main.rs:24-65 | the fields of a peer's own record |
| Exposed.RowFields | exposed/src/main.rs:67-73 | every field of a row but the coordinates, from the keys; light nodes alone are of type 1 |
| Exposed.SightingText | exposed/src/main.rs:60-63 | a sighting is read as the decimal count it is, and as zero when missing or no number |
| Exposed.CoordinateText | exposed/src/main.rs:43-55 | the coordinates are what stands before and after the comma; what is missing is not read |
| Exposed.AsI32 | exposed/src/main.rs:382 | the cast to 32 bits: in range, and the same up to a multiple of 2^32 |
| Exposed.Service.GetRow | exposed/src/main.rs:319-391 | one pass of the join, on earlier listings: skip, fail, or give the row |
| Exposed.ShownVersion | exposed/src/main.rs:326-345 | with time passing: the version shown is the one read late, its short form is cut from it, and a peer that is only unknown has neither |
| Exposed.Service.Join | exposed/src/main.rs:317-394 | the loop over the listed ids: a row for each that has a status, or an error caused by one of them |
| Exposed.Service.GetPeers | exposed/src/main.rs:285-395 | with time passing between the commands: an error exactly when some listed peer's lease ends between listing and reading, else exactly one row per peer filed and with a status when listed, numbered by its place in the listing |
| Exposed.InstantTable | exposed/src/main.rs:285-395 | on one instant that is the table of the instant |
| Exposed.GetPeersAtOnce | exposed/src/main.rs:285-395 | a query all of whose commands see one instant succeeds, with the table of that instant |
| Exposed.Service.PeerInMap | exposed/src/main.rs:75-186 | for any text and any timing of the commands: in the map exactly when some live key matches it as a pattern; at one instant, for an id that is a pattern for itself alone, exactly when its record has a status, with the same row as the table |
| Exposed.ShownStatus | exposed/src/main.rs:92-177 | with time passing: the short version is cut from the version unless the peer is only unknown, and the node type is the one read |
| Exposed.PlainStatus | exposed/src/main.rs:83-160 | for an id that is a pattern for itself alone, the answer is that of the peer's own record |
| Exposed.SecondRouteExact | exposed/src/main.rs:83-160 | the second route answers from the peer's own record on every store if and only if the id is a pattern for itself alone |
| Exposed.WrongAnswer | exposed/src/main.rs:83-160 | for any other id, a store of one key on which it is wrong about the peer being in the map |
| Redis.LiteralExact | exposed/src/main.rs:83-86 | text with nothing special, but perhaps a lone backslash at the end, matches itself alone |
| Redis.NotLiteral | exposed/src/main.rs:83-86 | any other text does not match itself, or matches another text as well |
| Exposed.StarIsInTheMap | exposed/src/main.rs:83-87 | for the id `*` the answer is yes as soon as anybody is online, though `*` has no lease of its own |
| Exposed.EmptyVersion | exposed/src/main.rs:83-91 | with time passing, the version comes out empty exactly when the lease that was listed has ended before it is read |
| Exposed.FailedQuery | exposed/src/main.rs:326-333 | a store and a timing on which the query fails |
| Exposed.BothRoutes | exposed/src/main.rs:75-395 | on one snapshot the two routes agree on membership and on every field but the number |
| Exposed.RunsAreReadable | exposed/src/main.rs:258-333 | runs about dot-free ids leave stores both routes can read without error |
| Exposed.StatusOfHistory | exposed/src/main.rs:319-332 | a peer has a row exactly when one of its three leases is live by its history |
| Exposed.VersionOfHistory | exposed/src/main.rs:326-345 | the version shown is that of the opener of the online lease, else of the ex lease, and its short form is cut from it; else none and "Unknown" |
| Exposed.NodeTypeOfHistory | exposed/src/main.rs:67-73 | a peer is shown as a light node exactly when its latest online report said it is one |
| Exposed.DetailsOfHistory | exposed/src/main.rs:347-391 | a row's sighting is the time of the latest report in whole seconds, and its place fields are those of one lookup answer |
| Exposed.TableOfRun | exposed/src/main.rs:285-395 | on every store a run leaves, a table lists exactly the peers ever reported reachable there that have a live lease |
| Exposed.UnknownIsListed | exposed/src/main.rs:292-332 | a live unknown peer is in one of the two tables if and only if some reachable report named Mirana or Pudge for it |
| Exposed.UnknownUnlisted | exposed/src/main.rs:303-306 | a peer vouched for on Dev alone is live as unknown and in neither table |
| Deployment.ShowTable | exposed/src/main.rs:285-395 | after anything at all has arrived at marci, the table is the one its history of reports calls for |
| Deployment.RowsAreFresh | exposed/src/main.rs:319-391 | read between arms, every row's last sighting is within the longer timeout, however the commands were timed |
| PageCache.AdvanceKeepsCache | exposed/src/main.rs:189-245 | every step of every request keeps locks and cache right |
| PageCache.CacheIsWhole | exposed/src/main.rs:210-216 | when the data lock is free the cache is untouched, or one whole result with the time it was stored |
| PageCache.CachedReplyIsRecent | exposed/src/main.rs:193-243 | a cached reply is one whole store, less than 31 seconds old at the clock its freshness was judged by |
| PageCache.Decisions | exposed/src/main.rs:193-199 | a request fetches exactly when the table is empty or its store at least 31 seconds old, else answers with the table it finds; it fails exactly when its fetch does |
| PageCache.FreshIsServed | exposed/src/main.rs:193-243 | over every run, a request that found a store less than 31 seconds old never holds the client and ends with an answer from the cache |
| PageCache.TriesToStore | exposed/src/main.rs:210-230 | a fetched table is stored exactly when the data lock is free at once |
| PageCache.FetchIsStored | exposed/src/main.rs:209-222 | over every run, a fetch that got the data lock is in the cache when its request answers, and is the answer |
| PageCache.RepliesAreWhole | exposed/src/main.rs:209-243 | every reply with rows carries one whole result of the query, and one not from the cache the request's own |
| PageCache.NoDeadlock | exposed/src/main.rs:193-243 | from any waiting request, at most two lock holders on, some request can step |
| PageCache.StepsRunOut | exposed/src/main.rs:189-245 | each step leaves a request fewer of at most eleven steps, whatever the others do |
| PageCache.AllCanFinish | exposed/src/main.rs:189-245 | from any point of any run all requests can be brought to their ends, in no more steps than they have left |
| PageCache.RequestAlone | exposed/src/main.rs:189-245 | a request that comes when all others are done, at any time after any run: what it answers with and what it leaves in the cache, for every table, age and outcome of the fetch |
| Multiaddr.AddrToNodeMeta | src/network.rs:65-86 | the fold takes the last address, port and id of any component sequence |
| Multiaddr.AddrToEndpoint | src/network.rs:88-100 | the fold gives the single endpoint the other fold gives |
| Multiaddr.LastOneWins | src/network.rs:69-80 | the last component of a kind decides, whatever stands before or after it |
| Multiaddr.Defaults | src/network.rs:66-68 | without a component of a kind: 127.0.0.1, port 0, no id |
| Multiaddr.V4RoundTrip | src/network.rs:110-112 | dotted decimal text reads back to the same four octets |
| Multiaddr.V4Exact | src/network.rs:110-112 | text is read as an IPv4 address exactly when it is how that address is printed |
| Multiaddr.PrintText | src/network.rs:109-115 | the text an endpoint is dialled by, for both kinds of address |
| Multiaddr.ParseExact | src/network.rs:109-115 | text parses exactly when it starts with a slash and protocols and values alternate, each pair standing for its component |
| Multiaddr.AddressesPieces | src/network.rs:102-119 | nothing for a loopback endpoint and one attempt to parse for any other, in order |
| Multiaddr.ParsePrint | src/network.rs:102-120 | the text of an endpoint parses to its three components exactly when the id is a peer id |
| Multiaddr.ThroughMeta | src/network.rs:65-120 | what becomes of any address sent through both conversions |
| Multiaddr.AddressRoundTrip | src/network.rs:65-120 | the round trip returns the address exactly for non-loopback address, port and peer id in that order |
| Dialer.Handler.Collect | src/handler.rs:153-165 | a node is named by its first address and keeps all its non-loopback endpoints in order |
| Dialer.Handler.Retain | src/handler.rs:164-165 | exactly the non-loopback endpoints stay, in order |
| Dialer.NonLoopbackKeeps | src/handler.rs:164-165 | an endpoint is kept exactly when it was there and is not loopback |
| Dialer.NonLoopbackPieces | src/handler.rs:164-165 | the filter of a list is that of its pieces, in order and number |
| Dialer.Handler.ReceivedDiscovery | src/handler.rs:138-193 | exactly one report per node with addresses, in order: named by the node's first address, on this dialer's network, and vouched for by the peer at the other end of the session |
| Dialer.Handler.HandleDialError | src/handler.rs:199-216 | a failed dial is reported unknown under this dialer's network |
| Dialer.ParsedOnlyPieces | src/main.rs:99-100 | the addresses that parsed, in order and number |
| Dialer.ParsedOnlyKeeps | src/main.rs:99-100 | an address is left exactly when some entry parsed to it |
| Dialer.EndpointIsDialled | src/main.rs:99-112 | every non-loopback endpoint of a request that names a real peer is among the addresses to dial |
| Dialer.DialNode | src/main.rs:94-118 | every address that parses is dialled on the request's network, and so every non-loopback endpoint when the request names a real peer; the unreachable branch is met exactly for a Dev request with such an address |
| ClosedSystem.BroadcastContent | marci/src/main.rs:418-435 | a broadcast message carries the network of the latest reachable report and exactly the endpoints its reachable reports gave, each once |
| ClosedSystem.StaysWithinNetwork | marci/src/main.rs:387-434 | every endpoint of a request was reported under its network if and only if every endpoint reported of the peer was also reported under the latest one |
| ClosedSystem.EndpointsCrossNetworks | marci/src/main.rs:387-434 | one more reachable report, under a network an endpoint was never given under, sends that endpoint there |
| ClosedSystem.CrossingHappens | marci/src/main.rs:387-434 | two reports of one peer after which that happens |
| ClosedSystem.DialSoundness | src/main.rs:94-118 | over every run of the three processes: whatever is dialled for a peer is a non-loopback endpoint of a discovered node whose first address named that peer, on a network such a node was learned of on |
| ClosedSystem.DialCompleteness | src/main.rs:94-118 | over every run: a dialer that takes up a request for a real peer dials every endpoint in it |
| Propagation.DiscoveryComesThrough | src/handler.rs:138-193 | after any run whatsoever, four more steps take a newly discovered endpoint of a real peer to a dial on the network it was learned on, under the id that names its node |
| Propagation.ReportComesThrough | marci/src/main.rs:330-380 | after any run whatsoever, two more steps take any online or unknown report under a printable id to marci, at any time and with any lookup answer |
| ClosedSystem.WitnessesAreSessions | src/handler.rs:147-176 | over every run, every witness a peer has is the peer at the other end of a session in which a node naming that peer was told of |
| ClosedSystem.LoopbackTestIdle | src/network.rs:105-107 | over every run, the loopback test at the dialling end drops nothing |
| ClosedSystem.NetworkClosure | src/main.rs:101-113 | over every run with dialers for Mirana and Pudge, the unreachable branch is never reached |
| ClosedSystem.EveryUnknownIsListed | exposed/src/main.rs:292-332 | over every such run, every live unknown peer is in one of the two tables |
| ClosedSystem.StoredNetworks | marci/src/main.rs:390-391 | over every such run, a stored network is Mirana or Pudge and that of the latest reachable report |
| Compress.Message.FromRaw | src/compress.rs:34-39 | an uncompressed flag, then the data |
| Compress.Message.Compress | src/compress.rs:47-62 | the buffer is flagged and compressed, or byte for byte what it was |
| Compress.Message.Decompress | src/compress.rs:65-97 | any bytes are taken apart or refused, never read out of range |
| Compress.HowFramesAreRead | src/compress.rs:65-105 | from a first byte of 0x80 up the rest is decoded, unless its length is unreadable or above 0x80_0000; below, the rest is the payload |
| Compress.HowPayloadsAreFramed | src/compress.rs:34-62 | 0x80 and the encoded payload exactly from 1024 bytes up when the encoder takes it, else 0x00 and the payload |
| Compress.CompressData | src/compress.rs:109-111 | the same of the entry point |
| Compress.FramingRoundTrip | src/compress.rs:34-105 | a payload survives exactly when it is short, refused by the encoder, or within the receiver's limit; otherwise it is rejected, never altered |
| Compress.ReservedBitsIgnored | src/compress.rs:99-105 | the seven reserved bits never change how a frame is read |
| Compress.Transmit | src/compress.rs:108-116 | the same over the two entry points, run one after the other |

## Left out

- Redis and MQTT errors and the early exits they cause: commands are assumed to succeed.
- Arms over time: `Leases`, `Witnesses`, `Facts` and `Store` take an arm to happen at one instant. `Interleaving`, `OverTime` and `FactsOverTime` let time pass between commands, for every key but the address of the last online report (marci/src/main.rs:344), which nothing reads; of the last sighting they say what `Interleaving.DisplayFreshness` says.
- Interleaving.DisplayFreshness: to the whole second, because the stored sighting is in whole seconds.
- Interleaving: the answer of a lookup is fixed when the arm starts, and the clock reading stored as the last sighting is taken at its own command.
- Exposed.Service.GetPeers: the Dev network is a precondition, since the code has no branch for it; time passes between its commands, but the reads of one row see one instant and the store is fixed. What the listings miss while marci writes is in `Race`; rows read while marci writes are not modelled.
- Exposed.Service.Join: the store is fixed during the loop, as for `Exposed.Service.GetPeers`.
- Race.MissedExactly: peers that hold an ex lease during the query are left aside.
- Exposed.Service.PeerInMap: time passes between listings and reads, but the version and the other fields are read at one instant and the store is fixed.
- ClosedSystem.DialSoundness: does not say that the endpoint was learned on the network it is dialled on, because that can fail (`ClosedSystem.CrossingHappens`) and holds exactly as `ClosedSystem.StaysWithinNetwork` says.
- Keys.ListingDecodes: dotted ids are a precondition; Keys.DecodeFormat says exactly what fails for them.
- The key formats for versions and witness lists (marci/src/main.rs:66-70, 102-106), which nothing uses.
- Keys left by earlier versions or other writers: the store starts empty and marci is its only writer.
- PageCache: which network a cached table belongs to, since the cache is not keyed by network; and one cache per worker of the web server.
- PageCache: both readings of how long the guard of the first test is kept are covered by `Guard`.
- Numbers: `ParseDecimal` reads plain digits; a leading plus sign, and counts beyond 64 bits, are not modelled.
- Coordinates: reading a floating-point number is an arbitrary function of the text.
- Dates: the conversion of a count of seconds to a calendar date.
- IPv6 text, endpoint encoding, which byte strings are peer ids, and the snappy codec: abstract pairs with their inverse law.
- Multiaddresses: only ip4, ip6, tcp and p2p are read from text; other protocols appear as ignored components.
- Byte buffers: split, extended and rejoined as sequences; sharing of the underlying storage is not modelled.
- Molecule decoding, MQTT connections and reconnects, channel capacities, HTTP routing and headers, p2p sessions, command-line and environment parsing.
- Received identify messages beyond the report they lead to, protocol tables, message builders, bootnode lists and `addr_to_ip`: only easy facts.
