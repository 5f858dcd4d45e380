# Verification of the DNS stub resolver

This project models the hard parts of the resolver in Dafny and proves what they
promise. Each file is one module and follows one part of the program:

- `Text`, `DomainName`, `ReverseName`, `Grammar`, `Candidates`: dotted names. The
  one-pass scanner, the reverse names, the EBNF recogniser with its printer, and
  the list of names a lookup tries.
- `Wire`, `Records`, `Rdata`: the decoders of raw record data against an encoder.
- `WeightedOrder`, `UniformOrder`: the in-place orders of SRV and MX records.
- `ConfigReload`, `Upstreams`: state machines for shared memory, one step per
  access, any number of threads.
- `HostsIndex`, `HostsCache`: the two indexes of the hosts file and the cache.
- `ResolvConf`: reading resolv.conf.
- `Errors`, `Answers`, `Pipeline`, `RoundTrip`, `Query`, `Rotation`, `Lookup`,
  `TypedLookups`: the query engine, from one datagram to the records of a lookup.
- `Service`, `Zone`: the stream of the gRPC service, and what its early exit loses.

Code that changes things step by step is a method with loops, arrays or a class,
proved against a specification function; the theorems are about that function.
The world outside is an input: the network gives a connection for each round trip,
which may depend on all that is asked, random numbers are a stream of draws, the
clock and the file system answer each step, and library calls (`strings.Fields`,
`net.ParseIP`, `slices.SortFunc`, the message parser) are function parameters or
values with the properties they document. Integer widths are written out where they
matter: the 32-bit server offset and TTL, the 64-bit pick counter and timeout.

`dafny verify dfyconfig.toml` checks everything.

Where the code does not do what its comments, or the text it implements, say,
the model follows the code, and a lemma gives the exact condition:

- internal/resolver/resolver.go:226-232 skips 17 lookups when the address lookup
  is "not found", citing a name that does not exist for any type. The engine says
  "not found" also of a name without addresses (`Answers.NotFoundIff`) and of one it
  never asks about (`Zone.AddressNotFound`). Against servers that answer from a zone,
  with or without aliases in front of the records, every record of the queried types
  is sent if and only if the name can be asked about and has an address, or there is
  nothing to lose (`Zone.EarlyExitIff`); a name with only a mail exchanger, and an
  alias of a name that does not exist, are streamed as empty (`Zone.MxOnlyIsLost`,
  `Zone.DanglingAliasIsLost`).
- dns/dnsclient_unix.go:331 adds to a wrapping 32-bit offset before taking the
  remainder, so a query that fails does not always ask three servers alike
  (`Rotation.FairIff`, `Rotation.ThreeServers`).
- dns/golookup.go:138 is documented to walk the answer section, but starts where
  `skipToAnswer` stopped, so an alias in front of its address is dropped
  (`Pipeline.AddressIff`, `Pipeline.AliasDropped`).
- dns/hosts.go:91-151 stores the stamp of a file it could not open, so from then on
  the maps stay empty, even if it becomes readable, until a lookup that finds the file
  written or removed, or cannot have its stamp, gets to open it
  (`HostsCache.RefusedSticks`, `HostsCache.StuckUntil`);
  and a lookup whose open fails serves maps of any age (`HostsCache.ServedIsFresh`).
- dns/dnsconfig_unix.go:110 multiplies seconds in 64 bits (`ResolvConf.TimeoutFaithful`);
  dns/lookup.go:118 narrows the TTL (`Records.TtlFaithful`).
- dns/dnsconfig_unix.go:76-79 accepts `domain .`, whose suffix makes no valid name
  (`Candidates.RootSuffix`).
- internal/resolver/resolver.go:156 converts an unsigned counter before the
  remainder (`Upstreams.IndexInRange`).
- dns/lookup.go:77 accepts label lengths up to 191 and does not escape dots
  (`Wire.LabelLimit`, `Wire.DotIsAmbiguous`).
- dns/net_helpers.go:42-52 maps context errors after a round trip. That takes the
  flags from exactly one error, a bare context deadline (`Errors.FlagsKeptIff`), so a
  strict lookup does not stop at it (`Query.TemporaryIff`, `Query.QueryTemporaryIff`).
  A connection of the net package never reports it: the deadline that
  dns/dnsclient_unix.go:204-206 sets makes a read fail with an operation error, which
  stays temporary. Only a connection from a caller's own Dial
  (dns/net_helpers.go:97-105) can.
- dns/dnsclient_unix.go:157-165 reads a stream with `io.ReadFull`, whose error for a
  stream that the server has closed is no operation error, so dns/dnsclient_unix.go:339
  does not make it temporary and a strict lookup goes on; every other loss on a
  connection of the net package is temporary (`Query.LossTemporaryIff`).
- dns/dnsclient_unix.go:472-486 returns a nil error without an answer when there is
  no candidate name (`Lookup.LookupNilError`).

## Model

| member | source | states |
|---|---|---|
| `DomainName.IsDomainName` | dns/dnsclient.go:90-147 | the scanner accepts exactly ".", and the texts of at most 253 bytes plus an optional final dot whose labels have 1..63 letters, digits, "_" or "-", do not start or end with "-", and are not all digits |
| `DomainName.IsNameMeans` | dns/dnsclient.go:90-147 | that set written out over the bytes of the text and of its pieces |
| `ReverseName.NibbleText` | dns/dnsclient.go:49-56 | the buffer loop writes the 32 nibbles from the last to the first, each as a hex digit and a dot |
| `ReverseName.ReverseAddr` | dns/dnsclient.go:40-61 | fails exactly when the text is no address; otherwise gives the in-addr.arpa or ip6.arpa name of the 16 bytes |
| `ReverseName.ReverseLabelsAre` | dns/dnsclient.go:40-61 | the labels have the decimal values of the four bytes, last byte first and without leading zeros, under in-addr.arpa, or the values of the 32 half bytes, lowest first, under ip6.arpa |
| `ReverseName.ReverseNameIsName` | dns/dnsclient.go:40-61 | every reverse name passes the scanner |
| `ReverseName.ReverseNameInjective` | dns/dnsclient.go:40-61 | two different addresses, of either kind, never share a reverse name |
| `Grammar.RecogniseSound` | internal/grammar/lang/domain.ebnf:27-37 | what the recogniser reads is a derivation of the grammar |
| `Grammar.RecogniseComplete` | internal/grammar/lang/domain.ebnf:27-37 | every derivation is found, with its labels and its optional dot |
| `Grammar.ValidateLabel` | internal/grammar/domain.go:166-178 | accepts exactly the labels of 1..63 bytes without a hyphen at either end |
| `Grammar.ValidateDomain` | internal/grammar/domain.go:148-164 | accepts exactly the acceptable label lists, and otherwise names the first label that is not acceptable, or the length if all are |
| `Grammar.LowerLabels` | internal/grammar/domain.go:48-51 | the loop lowers every label |
| `Grammar.ParseDomain` | internal/grammar/domain.go:32-64 | returns the Domain of the specification, or else says which check failed first: empty, no match, the first bad label, or the excess length |
| `Grammar.ParsedIs` | internal/grammar/domain.go:32-64 | of an accepted text: the hostname is the lowered text without a final dot, the labels are its pieces but the last, the TLD is "com" or the last piece, and the flag is the final dot |
| `Grammar.AcceptableDerived` | internal/grammar/domain.go:148-178 | on labels of the grammar the Go checks amount to labels of at most 63 bytes without a final hyphen and at most 253 bytes without the final dot |
| `Grammar.ParseAccepts` | internal/grammar/domain.go:19-64 | a text is accepted if and only if it matches the grammar within those sizes |
| `Grammar.Unambiguous` | internal/grammar/lang/domain.ebnf:27-29 | a text has one list of labels and one reading of the final dot |
| `Grammar.PrintParse` | internal/grammar/domain.go:104-121 | printing what was parsed is the text in lower case |
| `Grammar.ParsePrint` | internal/grammar/domain.go:32-121 | parsing what was printed gives the same Domain |
| `Grammar.SameDomain` | internal/grammar/domain.go:32-64 | two accepted texts have one Domain if and only if they differ in letter case only |
| `Candidates.StringsHasSuffixFold` | dns/net_helpers.go:54-77 | the byte loop is suffix equality up to ASCII letter case |
| `Candidates.AvoidsDNS` | dns/dnsclient_unix.go:501-508 | a name is hidden from DNS if and only if it is empty or the last of its two or more labels is "onion" in any case |
| `Candidates.OnionLabel` | dns/dnsclient_unix.go:501-508 | the suffix test holds if and only if the last of two or more labels is "onion" in any case |
| `Candidates.BuildNameList` | dns/dnsclient_unix.go:510-550 | a rooted name is tried alone; any other itself and with every suffix that fits, in search-list order, itself first if and only if it has ndots dots; hidden and overlong names left out |
| `Candidates.FirstOrLast` | dns/dnsclient_unix.go:527-550 | a name that is not hidden is tried first if and only if it has ndots dots or no suffix is usable, and last if and only if it has fewer or none is |
| `Candidates.CandidatesSound` | dns/dnsclient_unix.go:510-550 | every candidate is absolute, has at most 254 bytes and is not hidden |
| `Candidates.NoCandidates` | dns/dnsclient_unix.go:510-550 | a valid name has no candidate if and only if it is hidden and, unless rooted, no suffix makes it usable |
| `Candidates.SuffixedIsName` | dns/dnsclient_unix.go:538-544 | a suffixed candidate is a valid name if and only if the labels of the suffix are valid |
| `Candidates.RootSuffix` | dns/dnsconfig_unix.go:76-79 | the root as suffix never makes a valid candidate |
| `Candidates.CanonicalParts` | internal/resolver/resolver.go:304-325 | for any Domain the queried name is its labels and TLD joined, or without any the hostname, with one final dot; it is empty exactly when there is nothing to join |
| `Candidates.AcceptedQuery` | internal/resolver/resolver.go:304-325 | for every accepted text the canonical name is the lowered text with one final dot; it passes the scanner if and only if the text has a letter or hyphen; it is its own only candidate, or has none if it is below "onion" |
| `Candidates.ReverseQuery` | dns/dnsclient_unix.go:510-525 | a reverse name is valid and its own only candidate |
| `Wire.CharStringIff` | dns/lookup.go:47-59 | a character-string is read at an offset if and only if an encoded one stands there |
| `Wire.NameIff` | dns/lookup.go:61-90 | a name is read at an offset if and only if an encoded name (labels of 1..191 bytes, then 0) stands there, with those labels and that end; no other byte matters |
| `Wire.ParseWireName` | dns/lookup.go:65-90 | the loop reads that name and returns its text and end, or the start on failure |
| `Wire.TextToLabels` | dns/lookup.go:83-89 | the text gives the labels back if and only if no label holds a dot |
| `Wire.RootText` | dns/lookup.go:83-89 | the text ends with a dot, and is the dot alone if and only if there is no label |
| `Wire.LabelLimit` | dns/lookup.go:74-82 | a label is read if and only if it has 1..191 bytes |
| `Wire.DotIsAmbiguous` | dns/lookup.go:83-89 | with dots inside labels two encodings share a text |
| `Wire.ParseSVCBParams` | dns/lookup.go:92-112 | the loop reads the parameters of the specification |
| `Wire.ParamsIff` | dns/lookup.go:92-112 | the rest of a buffer is read as parameters if and only if it is exactly the concatenation of their encodings |
| `Records.TtlFaithful` | dns/lookup.go:117-118 | the stored TTL is the int32 that is equal to that of the wire modulo 2^32; it is that TTL, and not negative, exactly up to 2^31 - 1 |
| `Records.NewRecordInjective` | dns/lookup.go:117-160 | TTL, type and body are recovered from the record |
| `Rdata.DecodeComplete` | dns/lookup.go:288-422 | data that holds encoded fields decodes to their presentation, through all the offsets |
| `Rdata.RoundTrip` | dns/lookup.go:343-422 | encoding then decoding is the identity on DNAME, HINFO, RP, NAPTR, SVCB and HTTPS fields |
| `Rdata.DecodeSound` | dns/lookup.go:235-422 | what decodes holds the encoding of some fields of that type |
| `Rdata.DecodeIff` | dns/lookup.go:235-422 | data decodes to a body if and only if it holds fields of that type with that presentation |
| `Rdata.LayoutIs` | dns/lookup.go:288-422 | where each field of a decoded body stands in the data: in which order, with which length, numbers with the more significant byte first |
| `Rdata.PortVector` | dns/lookup.go:393-422 | the test vector of appendix D.2 of RFC 9460 decodes to its presentation |
| `WeightedOrder.TotalWeight` | dns/sort.go:49-52 | the running sum is the total weight of the slice |
| `WeightedOrder.FindPick` | dns/sort.go:54-64 | for a draw below the total the inner search always stops at an index, the selected one |
| `WeightedOrder.DrawOne` | dns/sort.go:53-67 | one round swaps the selected record to the front of the slice and touches nothing else |
| `WeightedOrder.ShuffleByWeight` | dns/sort.go:48-68 | the in-place loop computes the weighted order of its range and leaves the rest of the array |
| `WeightedOrder.PickInterval` | dns/sort.go:54-64 | a draw selects record i if and only if it lies between the prefix sums around i |
| `WeightedOrder.WeightedChoice` | dns/sort.go:54-64 | the number of draws that select a record is its weight |
| `WeightedOrder.ShufflePermutes` | dns/sort.go:48-68 | the weighted order is a permutation |
| `WeightedOrder.ShufflePositiveFirst` | dns/sort.go:48-68 | for all draws, positive weights come before zero weights |
| `WeightedOrder.EveryOrder` | dns/sort.go:48-68 | every order of the positive-weight records is produced by some draws, each below the weight left when it is used |
| `WeightedOrder.SortSRVRecords` | dns/sort.go:30-45 | the array ends as the sort with every priority bucket in weighted order |
| `WeightedOrder.FinishBucket` | dns/sort.go:37-44 | each call shuffles its own bucket only |
| `WeightedOrder.BucketsPermute` | dns/sort.go:30-45 | the final order is a permutation of the sorted records |
| `WeightedOrder.BucketsOrder` | dns/sort.go:30-45 | priorities stay where the sort put them, and inside a priority positive weights come first |
| `WeightedOrder.SrvOrder` | dns/sort.go:28-45 | whatever the draws and the ties: a permutation of the input, by priority, positive weights first |
| `WeightedOrder.EverySrvOrder` | dns/sort.go:28-45 | every order of the positive-weight records that respects the priorities is produced by some draws in range, so the buckets are shuffled independently |
| `UniformOrder.ShuffleUniform` | dns/sort.go:19-22 | the in-place exchanges arrange the records by the permutation the choices deal |
| `UniformOrder.DealtUndealt` | dns/sort.go:19-22 | every permutation is dealt by the choices read off it |
| `UniformOrder.UndealtDealt` | dns/sort.go:19-22 | the choices are read off the permutation they deal |
| `UniformOrder.DealIsBijective` | dns/sort.go:19-22 | each permutation comes from exactly one sequence of choices |
| `UniformOrder.OrderedPermutes` | dns/sort.go:16-26 | sorting the dealt records is a permutation of the input, for all choices |
| `UniformOrder.EveryMxOrder` | dns/sort.go:16-26 | whatever order the sort is to be given, some draws in range give it |
| `UniformOrder.SortMXRecords` | dns/sort.go:16-26 | the array ends as the sort of the dealt records: a permutation, with the preferences of MX bodies not decreasing |
| `ConfigReload.RunInv` | dns/dnsclient_unix.go:391-451 | the invariant of once, semaphore, pointer and throttle holds in every run |
| `ConfigReload.MutualExclusion` | dns/dnsclient_unix.go:413-451 | in every run at most one thread is between acquire and release, and the configuration is set after initialisation |
| `ConfigReload.HandedWasStored` | dns/dnsclient_unix.go:386-389 | a configuration handed to a thread was the stored one at some moment of the run |
| `ConfigReload.OnlyHolderWrites` | dns/dnsclient_unix.go:413-437 | after initialisation only that thread writes the time of the check or the configuration |
| `ConfigReload.ReplacedIfChanged` | dns/dnsclient_unix.go:424-437 | after initialisation the configuration is replaced only by a thread whose own check found another modification time, and by what that thread read |
| `ConfigReload.ChecksAreApart` | dns/dnsclient_unix.go:419-423 | along every run the time of the check never decreases and different values are at least 5 s apart |
| `ConfigReload.RecheckRate` | dns/dnsclient_unix.go:419-423 | however many threads, at most one recheck for every 5 s passed |
| `ConfigReload.NeverStuck` | dns/dnsclient_unix.go:406-417 | only a thread that waits for initialisation is blocked, and then the initialising one can move |
| `ConfigReload.Solo` | dns/dnsclient_unix.go:406-438 | a thread alone rechecks if and only if reloading is allowed and 5 s have passed, reads the file if and only if its modification time then differs, and returns what is stored in the end |
| `Upstreams.IndexInRange` | internal/resolver/resolver.go:152-160 | the index is valid if and only if fewer than 2^63 picks came before, or the distance to the wrap is a multiple of the pool |
| `Upstreams.IndexCounterexample` | internal/resolver/resolver.go:156-157 | with three upstreams pick 2^63 is out of range |
| `Upstreams.RunInv` | internal/resolver/resolver.go:110-160 | the invariant of cursor, counters and picks in flight holds in every run of fewer than 2^63 picks |
| `Upstreams.TurnsClosed` | internal/resolver/resolver.go:156 | after v picks every upstream had v / n turns and the first v % n one more |
| `Upstreams.Conservation` | internal/resolver/resolver.go:110-160 | in every such run printed, live and in-flight counts add up to the picks, and no index is out of range |
| `Upstreams.Fairness` | internal/resolver/resolver.go:110-160 | with no pick in flight the lifetime counts of two upstreams differ by at most one |
| `HostsIndex.KeyOfName` | dns/hosts.go:119-122 | a recorded name has the key it was indexed under |
| `HostsIndex.KeySame` | dns/dnsclient.go:157-163 | two names share a key if and only if they fold to one text, or to texts that differ in the final dot of a name with another dot |
| `HostsIndex.StripCommentIs` | dns/hosts.go:104-107 | a line counts up to its first "#" |
| `HostsIndex.AddFields` | dns/hosts.go:118-142 | the names of one line are added to both maps in order |
| `HostsIndex.AddLine` | dns/hosts.go:102-143 | one line extends both maps by its entries |
| `HostsIndex.BuildIndexes` | dns/hosts.go:86-144 | the maps are the two indexes of a plain scan of the lines, in file order, with the canonical name of the first mention |
| `HostsIndex.EntryIff` | dns/hosts.go:102-143 | the entries are exactly those that the fields of the lines make: address, name with a final dot if it has another, key, and key of the first name |
| `HostsIndex.InFileOrder` | dns/hosts.go:127-141 | both lists keep the order of the file, with repetitions |
| `HostsIndex.HostFound` | dns/hosts.go:155-169 | looking a host up lists an address if and only if some line gives it to a name with the host's key |
| `HostsIndex.AddrFound` | dns/hosts.go:172-188 | looking an address up lists a name if and only if some line gives it that name |
| `HostsIndex.CanonicalIsFirst` | dns/hosts.go:118-141 | the canonical name of a host is the first name of the first line that mentions it |
| `HostsIndex.IndexesAgree` | dns/hosts.go:86-144 | an address is listed for a key as often as a name with that key is listed for the address, and as often as the scan finds it |
| `HostsIndex.LookupsAgree` | dns/hosts.go:155-188 | looking a host up lists an address if and only if looking the address up lists a name that folds to the host |
| `HostsCache.Hosts.ReadHosts` | dns/hosts.go:73-152 | one call takes the fast path, refreshes a matching stamp, keeps all after a failed open, or stores new maps, stamp, path and an age of 5 s, each exactly in its case |
| `HostsCache.Hosts.LookupStaticHost` | dns/hosts.go:154-169 | the answer is the entry of the folded, dotted name after that call |
| `HostsCache.Hosts.LookupStaticAddr` | dns/hosts.go:171-188 | the answer is the list of the parsed address after that call |
| `HostsCache.OneCall` | dns/hosts.go:73-152 | a call that nothing interrupts is the two steps of the run model |
| `HostsCache.RunInv` | dns/hosts.go:73-152 | the invariant of cache and file holds in every run of lookups and writes |
| `HostsCache.MatchIsCurrent` | dns/hosts.go:80-84 | in every run a stamp match means the maps index the current file, or are empty after a refused open |
| `HostsCache.MatchIsCurrentIff` | dns/hosts.go:80-151 | a match gives the current file if and only if the last rebuild opened it or it has no entries |
| `HostsCache.RefusedIsStuck` | dns/hosts.go:91-151 | in any world a refused open of a file whose stamp was seen leaves empty maps under that stamp |
| `HostsCache.StuckUntil` | dns/hosts.go:80-151 | in every run exactly the end of a lookup that opened the file or was refused ends that state; a lookup gets that far if and only if it finds another stamp, no file, or cannot have the stamp |
| `HostsCache.RefusedSticks` | dns/hosts.go:91-151 | from every reachable world: after such an open the maps stay empty over any number of lookups of the unchanged file |
| `HostsCache.FastIsFresh` | dns/hosts.go:77-83 | maps served on the fast path had a stamp match or rebuild less than 5 s before |
| `HostsCache.ServedIsFresh` | dns/hosts.go:73-152 | what any lookup serves had a stamp match or rebuild less than 5 s before it started, if and only if it did not end in a failed open (when the maps hold anything) |
| `ResolvConf.EnsureRootedIs` | dns/dnsconfig_unix.go:178-183 | the result is the one text that ends with a dot and is the argument up to that dot |
| `ResolvConf.DnsConfig.ServerOffset` | dns/dnsconfig.go:44-53 | the old counter value, which then moves on modulo 2^32, or 0 without rotation |
| `ResolvConf.DnsConfig.ApplyOption` | dns/dnsconfig_unix.go:93-143 | one option changes exactly its setting |
| `ResolvConf.DnsConfig.ApplyOptions` | dns/dnsconfig_unix.go:91-144 | the loop applies the options in order |
| `ResolvConf.DnsConfig.SetSearch` | dns/dnsconfig_unix.go:81-89 | the search list is the rooted names of the line without the root |
| `ResolvConf.DnsConfig.ApplyFields` | dns/dnsconfig_unix.go:65-154 | one line changes exactly what its directive says |
| `ResolvConf.DnsReadConfig` | dns/dnsconfig_unix.go:26-163 | the object holds the settings of the lines, with defaults for what is missing |
| `ResolvConf.LineCounts` | dns/dnsconfig_unix.go:51-65 | a comment or a line without fields changes nothing, any other line is one more directive |
| `ResolvConf.SearchNamesAre` | dns/dnsconfig_unix.go:81-89 | a search line lists all its names in order, rooted, but for the root |
| `ResolvConf.DefaultSearchIs` | dns/dnsconfig_unix.go:165-176 | the default search list is what follows the first dot of the host name, if anything does |
| `ResolvConf.OptionKinds` | dns/dnsconfig_unix.go:93-143 | the cases of the switch exclude each other, so an option is of the case its text names |
| `ResolvConf.ReadIsWellFormed` | dns/dnsconfig_unix.go:26-163 | any file, readable or not, gives 1..3 servers, at least one attempt, ndots in 0..15 and rooted suffixes |
| `ResolvConf.FileDecides` | dns/dnsconfig_unix.go:51-162 | the first three valid servers, the last search or domain line, the last option of each number and any flag decide |
| `ResolvConf.TimeoutFaithful` | dns/dnsconfig_unix.go:105-110 | the timeout is the given seconds if and only if they are at most 9223372036; one more is negative |
| `Errors.NewDNSError` | dns/net_helpers.go:112-144 | not-found exactly for the sentinel; timeout and temporary exactly for a dialling deadline and for a net.Error that says so, temporary also for a server failure |
| `Errors.FlagsKeptIff` | dns/net_helpers.go:42-52 | mapErr keeps all flags of an error if and only if it is not the bare context deadline, which loses both |
| `Answers.ExtractExtendedRCode` | dns/dnsclient_unix.go:289-309 | the loop over the additional section computes the full code, with the EDNS version test of the library, and whether a record was seen |
| `Answers.FullRCodeIs` | dns/dnsclient_unix.go:292-309 | the code is the header's plus 16 times the code byte of the first reachable OPT record if its version byte is 0; in all other cases the header's alone |
| `Answers.CheckHeader` | dns/dnsclient_unix.go:237-269 | which error is returned, by response code, readable first answer and emptiness: name error 3, server failure 2 as temporary, any other code but 0 as permanent, a lame referral, or none |
| `Answers.SkipToAnswer` | dns/dnsclient_unix.go:271-287 | the loop stops where the specification says, with its error |
| `Answers.SkipToIff` | dns/dnsclient_unix.go:271-287 | it succeeds if and only if it stands on the first answer of the type behind skippable ones; "no such host" if and only if all can be skipped |
| `Answers.NotFoundIff` | dns/dnsclient_unix.go:237-287 | a response reads as not found if and only if it is a name error, or a success without a record of the type |
| `Answers.ParseGenericAnswers` | dns/lookup.go:195-454 | the loop returns the walk from the cursor: every record it gets, or the malformed-message error |
| `Answers.ParseTypedAnswers` | dns/golookup.go:203-290 | the same for the NS, MX and TXT loops |
| `Answers.ParseSRVAnswers` | dns/golookup.go:306-335 | the same for SRV, with the first owner name that is not empty |
| `Answers.ParsePTRAnswers` | dns/golookup.go:354-375 | the same for PTR targets |
| `Answers.ParseAddressAnswers` | dns/golookup.go:135-187 | the same for A, AAAA and CNAME together, with the first name that is not empty |
| `Pipeline.SkippingLosesNothing` | dns/golookup.go:197-376 | walking from where skipToAnswer stopped equals walking the whole section, for every one-type walker |
| `Pipeline.GenericIsFilter` | dns/lookup.go:195-454 | a walk succeeds if and only if every answer is readable, and then returns the decoded records of the type, all of them, in order |
| `Pipeline.SrvIsFilter` | dns/golookup.go:306-335 | the SRV walk succeeds if and only if every answer is readable, and then returns all SRV records, field by field, in order |
| `Pipeline.PtrIsFilter` | dns/golookup.go:354-375 | the same for PTR targets |
| `Pipeline.AddressIsFilter` | dns/golookup.go:141-186 | the same for A, AAAA and CNAME records, each under its own type |
| `Pipeline.UnsupportedIsEmpty` | dns/lookup.go:267-272 | PTR and unknown types give no records |
| `Pipeline.TypedIsGeneric` | dns/golookup.go:197-292 | the NS, MX and TXT loops agree with the generic one |
| `Pipeline.PipelineIsFilter` | dns/dnsclient_unix.go:237-287 | with a good header, records come back if and only if every answer is readable and one is of the type; they are exactly those of the type in the whole section |
| `Pipeline.RecordsHaveType` | dns/lookup.go:213-451 | every record returned has the asked type and a body of it |
| `Pipeline.AddressIff` | dns/golookup.go:135-187 | the address walk equals that of the whole section if and only if no address or alias comes before the first asked-type answer, or an answer from there on is unreadable |
| `Pipeline.AliasDropped` | dns/golookup.go:149-181 | an alias before its address is not returned and the address owner becomes the canonical name |
| `Pipeline.AddressNonEmpty` | dns/golookup.go:96-107 | a successful address query has a record |
| `Pipeline.FirstNameIs` | dns/golookup.go:157-180 | the canonical name is the first candidate name that is not empty |
| `Pipeline.CanonicalNameIs` | dns/golookup.go:149-180 | the canonical name is the owner of the first address or the target of the first alias, whichever comes first and is not empty |
| `Pipeline.OwnerIs` | dns/golookup.go:316-333 | the name of an SRV lookup is the first owner of an SRV record |
| `RoundTrip.EqualASCIIName` | dns/dnsclient.go:63-81 | true if and only if every two bytes are equal or the two cases of one letter |
| `RoundTrip.CheckResponse` | dns/dnsclient_unix.go:109-120 | true if and only if the packet is a response with the id, type and class of the request and its name up to letter case |
| `RoundTrip.DnsPacketRoundTrip` | dns/dnsclient_unix.go:124-149 | the loop returns the write error, the first match, or the error of the read that fails |
| `RoundTrip.FirstMatchIff` | dns/dnsclient_unix.go:130-148 | a packet is returned if and only if it is the first to answer the request, and an error if and only if none does, whatever else arrives |
| `RoundTrip.DnsStreamRoundTrip` | dns/dnsclient_unix.go:151-181 | success if and only if the one message matches; a failed write, an early end, an unreadable message and a wrong one have their own errors |
| `Query.RoundTripOn` | dns/dnsclient_unix.go:200-221 | one connection gives its dialling error, its mapped round-trip error, or the message of the matching packet without a second question |
| `Query.Exchange` | dns/dnsclient_unix.go:183-235 | one connection, or a second by TCP if and only if the first gave a truncated UDP response; the error after the loop is never returned |
| `Query.TcpIff` | dns/dnsclient_unix.go:194-235 | a second round trip is made, by TCP, if and only if the first was by UDP and gave a message with the truncation bit, and its result is then the result |
| `Query.OnlyMatchesPass` | dns/dnsclient_unix.go:207-232 | a message is judged only if a packet of the deciding connection answers the request, in class IN, and has no second question, and it is that packet's |
| `Query.AskServer` | dns/dnsclient_unix.go:333-366 | one exchange ends the query or is to be retried, with its error and flags |
| `Query.AskRound` | dns/dnsclient_unix.go:330-367 | an attempt asks the servers of its part of the plan until one ends the query |
| `Query.AskServers` | dns/dnsclient_unix.go:329-369 | the attempts together follow the plan to its end or to the first stop |
| `Query.TryOneName` | dns/dnsclient_unix.go:311-370 | every exchange before the last was to be retried; the query ends at the first that is not, or with the last error of the plan; a name over 255 bytes is never sent |
| `Query.EndedUnique` | dns/dnsclient_unix.go:329-369 | that contract fixes exchanges, outcome and round trips |
| `Query.AskIs` | dns/dnsclient_unix.go:329-369 | the function used by the loops above is the one way to meet it |
| `Query.PlannedLength` | dns/dnsclient_unix.go:329-331 | the plan has attempts times servers places |
| `Query.ExchangeBound` | dns/dnsclient_unix.go:329-333 | at most attempts times servers exchanges, of at most two round trips each, or one with TCP only |
| `Query.NilErrorHasAnswer` | dns/dnsclient_unix.go:346-369 | with a configuration as read, a nil error comes only with the parser on an answer of the asked type from a configured server |
| `Query.NotFoundStops` | dns/dnsclient_unix.go:346-369 | the error is not-found if and only if the last response stopped the query; any other error exhausted the plan; it names the query and the server of the last exchange |
| `Query.TemporaryIff` | dns/dnsclient_unix.go:333-344 | a failed exchange is temporary if and only if the network failed with an operation error or one that says so, where a bare deadline counts only in dialling |
| `Query.LostIff` | dns/dnsclient_unix.go:124-165 | an exchange is lost to an error of its connection if and only if the write fails, no datagram answers the request before the read that fails, or a stream ends before its message; the error is that of the write or read, with the context errors mapped |
| `Query.LossTemporaryIff` | dns/dnsclient_unix.go:157-218 | on connections of the net package a loss is temporary if and only if it is not the end of a stream that the server has closed |
| `Query.QueryTemporaryIff` | dns/dnsclient_unix.go:333-364 | the error of a query is temporary, so that strict mode stops, if and only if its last exchange was such a loss or a readable response with code 2 |
| `Rotation.FairPlanIff` | dns/dnsclient_unix.go:329-331 | each server has exactly `attempts` places in the plan if and only if the sums do not wrap or the number of servers divides 2^32 |
| `Rotation.FairIff` | dns/dnsclient_unix.go:329-369 | a query that fails otherwise than with "not found" has made as many exchanges as the plan has places, and has asked each server exactly `attempts` times if and only if the sums do not wrap or the number of servers divides 2^32 |
| `Rotation.Collision` | dns/dnsclient_unix.go:331 | otherwise one server is asked twice in an attempt |
| `Rotation.ThreeServers` | dns/dnsconfig.go:44-53 | for configurations as read only three servers with the last two offsets are uneven |
| `Rotation.NeverAsked` | dns/dnsclient_unix.go:329-331 | and then one server is never asked, whatever the attempts |
| `Lookup.AskCandidates` | dns/dnsclient_unix.go:473-483 | the loop ends at the first candidate that answers or fails temporarily in strict mode, or after the last |
| `Lookup.Lookup` | dns/dnsclient_unix.go:453-495 | candidates are asked in order up to the first that answers or fails temporarily in strict mode; the last outcome is returned under the original name |
| `Lookup.LookIs` | dns/dnsclient_unix.go:467-483 | the function used by the streams is the one way to meet that contract |
| `Lookup.LookDecides` | dns/dnsclient_unix.go:473-483 | the result is the outcome of the first candidate that answers, or in strict mode fails temporarily; other failures, not-found among them, lead on, and the last stands if all are such |
| `Lookup.LookupNilError` | dns/dnsclient_unix.go:472-486 | a nil error has an answer of the asked type, except that it has none if and only if the name has no candidate |
| `Lookup.AnswerYieldsAll` | dns/lookup.go:186-193 | from such an answer the generic walk returns all decoded records of the type in the section, at least one |
| `Lookup.LookupRecords` | dns/lookup.go:183-193 | end to end, the records are all those of the type in the one response that ended the query |
| `Lookup.TakeHasRecords` | dns/golookup.go:96-111 | an answered address question has records |
| `Lookup.TryCandidate` | dns/golookup.go:95-115 | the inner loop gives up at the first temporary error in strict mode or malformed answer; otherwise it collects records, name and error of all query types |
| `Lookup.BlockName` | dns/golookup.go:111-118 | a candidate without records leaves no canonical name |
| `Lookup.ResolveNames` | dns/golookup.go:93-132 | the outer loop computes the flat account: the first candidate that gives up or yields records decides |
| `Lookup.Report` | dns/golookup.go:121-132 | without records the kept error under the looked-up name, or no such host |
| `Lookup.GoLookupIPCNAMEOrder` | dns/golookup.go:74-133 | the DNS part is that account over the candidate list, for each family of query types |
| `Lookup.FirstCandidateWins` | dns/golookup.go:93-119 | the result is that of the first candidate that is not quiet, alone: its error, or all its records in query-type order |
| `Lookup.NobodyWins` | dns/golookup.go:121-130 | without one, the error kept from all of them |
| `Lookup.ErrorKept` | dns/golookup.go:101-103 | the kept error is the last one about the name as it is, else the first |
| `Lookup.AllFailed` | dns/golookup.go:93-132 | when every question fails and none stops the lookup, the error is that of the last question about the name as it is, else of the first question, under the looked-up name |
| `Lookup.CanonicalFound` | dns/golookup.go:105-119 | the canonical name is the first that an answer about the deciding candidate gives, in query-type order |
| `Lookup.SuccessIff` | dns/golookup.go:116-132 | success if and only if the deciding candidate does not give up, and then with at least one record, so the test for a name without records changes nothing |
| `Lookup.AbortIff` | dns/golookup.go:97-110 | the loops give up exactly on a temporary error in strict mode and on a malformed answer |
| `TypedLookups.WalksWhole` | dns/golookup.go:197-376 | from the parser of a nil error every one-type walk yields what it would from the whole section |
| `TypedLookups.LookupTyped` | dns/golookup.go:197-292 | NS and TXT lookups, and MX up to its sort: the error of the query, or the walk of the whole section of the response that ended it |
| `TypedLookups.GoLookupMX` | dns/golookup.go:227-257 | the result is a permutation of all MX records of that section, by preference, for all draws, and is the stated function of the network |
| `TypedLookups.ServiceLabels` | dns/golookup.go:297-301 | the SRV name is that of the domain under the labels of service and protocol, in this order |
| `TypedLookups.ServiceIsName` | dns/golookup.go:297-301 | it is a valid name if its parts are valid and it is not too long |
| `TypedLookups.GoLookupSRV` | dns/golookup.go:294-338 | the result is the weighted shuffle of the sort of all SRV records of that section: a permutation, by priority, positive weights first, for all draws |
| `TypedLookups.OneQuestion` | dns/golookup.go:346-350 | a reverse lookup asks for one name only, whatever the search list |
| `TypedLookups.GoLookupPTR` | dns/golookup.go:340-376 | the names of the hosts file, or the error for no address, or the PTR targets of the section |
| `TypedLookups.BuildHostRecords` | dns/golookup.go:50-68 | the loop makes the records of the hosts addresses |
| `TypedLookups.HostRecordsAre` | dns/golookup.go:50-68 | they are those of the addresses that parse, in order, an A record of the last four bytes of a mapped address or an AAAA record of any other, without a TTL; none if and only if none parses |
| `TypedLookups.LookupAddress` | dns/golookup.go:48-133 | the hosts file answers alone if and only if an address of it parses; otherwise the flat account of the DNS part |
| `Service.Emit` | internal/resolver/resolver.go:187-224 | an error is silent; the kept records are sent in order until the stream fails |
| `Service.LookupType` | internal/resolver/resolver.go:236-286 | each type is looked up by its own method of the engine |
| `Service.StreamTypes` | internal/resolver/resolver.go:236-287 | the 17 lookups are run in order on one engine, each when the one before has been sent; what they find is offered to the stream until it fails |
| `Service.StreamName` | internal/resolver/resolver.go:226-287 | the addresses first; nothing more if they are "not found", else all the other types |
| `Service.ResolveStream` | internal/resolver/resolver.go:174-288 | nil and empty requests are refused; else exactly that stream of the canonical name is offered, until the stream fails |
| `Zone.AddressNotFound` | internal/resolver/resolver.go:226-232 | for any rooted name the DNS says "not found" if and only if the name is invalid or hidden, or the A query does and the AAAA query fails without stopping a strict lookup |
| `Zone.AskZone` | dns/dnsclient_unix.go:329-369 | a query of a zone is "not found" without records of the type, and otherwise stands on the first of them, behind any aliases |
| `Zone.RecordsAreAll` | dns/lookup.go:195-454 | the records of a zone, decoded, are those on the wire, one by one |
| `Zone.SentOfZone` | internal/resolver/resolver.go:226-287 | exactly what is sent, type by type in the order of the code, for any zone, name and hosts file |
| `Zone.SentIff` | internal/resolver/resolver.go:209-287 | of a name with an address, a record of the zone that is no address is sent if and only if its type is one of the 17 and, for an alias, its target is not the name itself |
| `Zone.EarlyExitIff` | internal/resolver/resolver.go:226-232 | every record of the queried types is sent if and only if the name can be asked about and has an address, or nothing would be lost |
| `Zone.AskableText` | internal/resolver/resolver.go:304-325 | the name of an accepted text can be asked about if and only if the text has a letter or hyphen and is not below "onion" |
| `Zone.MxOnlyIsLost` | internal/resolver/resolver.go:226-248 | on one network what the stream has to send of a name with only a mail exchanger is nothing, and the lookup it skips finds the record, in any state |
| `Zone.DanglingAliasIsLost` | internal/resolver/resolver.go:226-240 | the same for an alias whose target does not exist, and the stream would keep the record |

## Left out

- Sockets, deadlines, dialing and contexts: a round trip either gives an error or a message; the deadline only makes a read fail.
- The message library: compression, name decoding and the typed readers are part of what an answer is; a BadHeader answer stays unreadable however it is reached.
- The fixed-layout data of LOC, SSHFP, KX, AFSDB, URI and CAA records: decoders of one branch; they are a function parameter of the generic walk.
- The SOA body keeps its five numbers as one list.
- Building request packets (dns/dnsclient_unix.go:74-107): whether a name can be packed is an input.
- Bytes against Unicode: a `char` stands for one byte, except in the hosts index, where it stands for a character as strings.ToLower sees it.
- bufio.Scanner's limit on line length and its read errors: a file is its list of lines.
- The error field of the configuration and the unwrapped cause in net.DNSError: they carry no decision.
- Query.AskServers: the loop is given the settings of the configuration object as a value, since it does not change them.
- Service.StreamTypes: the code writes the 17 lookups out one after the other; here they are a loop over the list of their types.
- The configuration of a stream: the code fetches the current one for every lookup; here one object serves the whole stream.
- The library sort: any function that returns a sorted permutation; the modulo bias of randIntn is not modelled.
- The resolverConfig and upstream counters as objects: concurrent code is a state machine over its atomic steps, so there is one mutable state, not a class.
- The grammar engine: the recogniser is written from the productions, and the walk over its syntax tree is part of it.
- ParseHostname and ParseTLD: the same checks on one label.
- The registration data client, the server and client mains, generated protocol code, and the text of the statistics line.
