# OpenProof: verified models of its state machines and codecs

OpenProof is a self-hosted identity server. This project models the parts of it whose
correctness rests on state kept across calls or on hand-written text formats, and proves what
those parts are for. One module stands for one component:

- **Gateway** (`RateLimiter`, `CircuitBreaker`, `LoadBalancer`, `Dispatch`, `TrustedContext`):
  the token-bucket limiter with its overflow bucket, the three-state circuit breaker, weighted
  round robin, the retry loop that joins them under any interleaving of requests, and the signed
  context that the gateway hands upstream.
- **Audit log** (`Audit`): the canonical text of a record and the chain of keyed hashes.
- **Device authorization** (`Device`): the grant of RFC 8628 with its two maps and its polling
  back-off.
- **Codecs** (`Encoding`, `Text`, `PasswordRecord`, `Json`): hexadecimal and base64url of RFC 4648,
  decimal numerals, length-prefixed parts and delimited fields, the scrypt password record, and the
  JSON object writer of RFC 8259.
- **Ceremonies** (`Handoff`, `EmailChange`, `Totp`, `AccountRepository`, `Consent`): browser handoffs,
  the email change with its compensations, authenticator enrollment, verification challenges and
  subject leases, and consent grants.

## How the models are built

Code that changes things in place is a class or a loop here. Its contract equates the new state and the
reply with a step function on values, and the theorems are about every run of that function: all
sequences of operations, or all interleavings of the atomic steps that the source's mutexes leave. What
a run promises is stated against a log of operations and replies, never against the state that answers. For most
machines the log decides everything: a theorem says that each answer is the one the earlier events call for.

A `char` of a Dafny `string` stands for one byte of a `std::string`; a `Byte` is one `std::byte`. Instants
and durations are integers in milliseconds. Integer widths are explicit where they matter: the base64url
accumulator and the failure count wrap at 32 bits, the balancer's counter at 64. HMAC-SHA-256, SHA-256,
scrypt, random identifiers, clock readings and failures of other components are parameters;
theorems hold for every choice of them. Where a theorem needs identifiers that are not drawn twice or a
clock that does not go back, its precondition says so.

Five places where the source does less than one would hope are stated as results:

- The email change does not restore what it undoes in every case. Rebinding an account binds it to the
  identity even if it was bound to none, attaching is idempotent so that its compensation may detach a link
  that was there before, and the way back validates the old subject again. `EmailChange.AtomicExactly` gives
  the exact condition on the state before the call; `EmailChange.UnboundAccountStaysBound` is a concrete run.
- Weighted round robin is fair over a window unless its 64-bit counter wraps inside it in an unlucky place.
  `LoadBalancer.FairExactly` says exactly when an endpoint still gets its weight, and `LoadBalancer.AllFairExactly`
  when all of them do; `LoadBalancer.CoversExactly` is the condition on single slots and `LoadBalancer.WrapIsUnfair`
  a concrete window.
- A JSON writer nested in itself prints its own unfinished entry: the key is appended before the nested text is
  built. `Json.NestingExactly` and the contract of `Json.JsonObjectWriter.AddNested` make "another writer" the exact
  condition, and `Json.SelfNestedExample` is the smallest such text.
- A half-open circuit does not keep to one probe. `Dispatch.TwoProbesTogether` is a run with two;
  `Dispatch.SecondProbeExactly` and `Dispatch.HalfOpenExactly` say exactly when a second attempt is let out beside
  a probe: after another attempt's report, at once or once the open duration has passed.
- The audit chain cannot show that records were cut off its end: `Audit.AcceptedPrefix`. Tamper evidence is
  relative to the last hash, as in `Audit.TamperEvident`.

## Model

| member | source | states |
|---|---|---|
| Encoding.ToHex | src/foundation/encoding.cpp:64-74 | the text is the two-digit lower-case spelling of every byte, in order |
| Encoding.FromHex | src/foundation/encoding.cpp:76-99 | succeeds exactly on an even number of hexadecimal digits of either case, with the bytes they spell |
| Encoding.HexRoundTrip | src/foundation/encoding.cpp:64-99 | decoding an encoding returns the bytes |
| Encoding.HexCanonical | src/foundation/encoding.cpp:64-99 | whenever decoding succeeds, encoding again returns the input in lower case |
| Encoding.HexInjective | src/foundation/encoding.cpp:64-74 | different bytes have different encodings |
| Encoding.SymbolIs | src/foundation/encoding.cpp:19-49 | the alphabet is that of section 5 of RFC 4648, and every letter decodes to its position |
| Encoding.ToBase64Url | src/foundation/encoding.cpp:101-132 | the text is the unpadded base64url form: as a number in base 64 it is the bytes' number in base 256, shifted by fewer than six zero bits |
| Encoding.FromBase64Url | src/foundation/encoding.cpp:134-184 | succeeds exactly on the canonical text of some bytes, trailing `=` aside, and returns those bytes; encoding them again gives the input without its `=` |
| Encoding.DecodeUnpadded | src/foundation/encoding.cpp:141-184 | the loop accepts exactly the canonical encodings, refusing bad lengths, foreign symbols and stray trailing bits |
| Encoding.DecodeSymbol | src/foundation/encoding.cpp:151-170 | one turn of the loop keeps the numeric meaning of the bytes emitted plus the pending bits, although the 32-bit accumulator wraps |
| Encoding.WrapKeepsPending | src/foundation/encoding.cpp:158-169 | reducing the accumulator modulo 2^32 never touches the bits still pending |
| Encoding.NotCanonical | src/foundation/encoding.cpp:172-181 | non-zero surplus bits mean that no byte string has this encoding |
| Encoding.EncodesBijective | src/foundation/encoding.cpp:101-184 | encoding is a bijection between byte strings and canonical texts |
| Encoding.Base64RoundTrip | src/foundation/encoding.cpp:101-184 | decoding an encoding returns the bytes |
| Text.UnsignedRoundTrip | src/credentials/credentials.cpp:61-70 | every 64-bit number that is printed is read back |
| Text.SignedRoundTrip | src/authentication/service.cpp:1092-1173 | every signed 64-bit number that is printed is read back, the most negative included |
| Text.PartPrefixFree | src/audit/audit.cpp:29-33 | a length-prefixed part delimits itself, whatever its text contains |
| Text.PartsInjective | src/audit/audit.cpp:29-33 | concatenated parts determine the list of texts |
| Text.AppendPart | src/audit/audit.cpp:29-33 | appending to a buffer of parts makes the buffer of one part more |
| Text.AppendParts | src/gateway/gateway.cpp:128-147 | appending a list of parts one by one makes the buffer of all of them |
| Text.Split | src/credentials/credentials.cpp:72-87 | the fields contain no delimiter and join to the text; empty fields and the empty text included |
| Text.DelimitedUnique | src/credentials/credentials.cpp:72-87 | a text has exactly one division into delimiter-free fields |
| Audit.BuildCanonical | src/audit/audit.cpp:35-58 | the buffer is the sequence of parts of position, event, previous hash and fields |
| Audit.CanonicalInjective | src/audit/audit.cpp:35-58 | the canonical text determines the position, the previous hash and the content, an absent organization or identity counting as an empty one |
| Audit.InMemoryAuditRepository.Append | src/audit/audit.cpp:150-166 | adds the next record exactly if the event id is new and the hash succeeds, and changes nothing otherwise; an accepted, numbered log stays accepted and numbered |
| Audit.InMemoryAuditRepository.Verify | src/audit/audit.cpp:174-193 | accepts exactly the chains in which every record names its predecessor's hash and carries its own |
| Audit.TamperEvident | src/audit/audit.cpp:174-193 | two lists accepted under one key with equal last hashes have the same length and agree record by record on everything covered, or they exhibit two messages with one keyed hash |
| Audit.BuiltAccepted | src/audit/audit.cpp:150-166 | every log built by appending alone is accepted, numbered 1 to n, with no id twice |
| Audit.BuiltRecords | src/audit/audit.cpp:150-166 | while the keyed hash does not fail, a log records exactly the events it was given, each id once, in order |
| Audit.ForgeryNeedsCollision | src/audit/audit.cpp:150-193 | a list accepted with the last hash of an honest log is that log, numbering included, or a collision exists |
| Audit.AcceptedPrefix | src/audit/audit.cpp:174-193 | every prefix of an accepted list is accepted: truncation is not detected |
| TrustedContext.MethodNameInjective | src/gateway/gateway.cpp:151-163 | different methods have different names |
| TrustedContext.HttpRequest.BuildPayload | src/gateway/gateway.cpp:134-147 | the buffer is the sequence of parts of method, target and the eight signed headers |
| TrustedContext.PayloadInjective | src/gateway/gateway.cpp:128-147 | the payload determines the method, the target and every signed header, an absent header counting as an empty one |
| TrustedContext.SignatureBindsContext | src/gateway/gateway.cpp:746-777 | two trusted requests whose signatures spell one digest, in either case, agree on all it covers, or the keyed hash collided |
| TrustedContext.SealedIsTrusted | src/gateway/gateway.cpp:736-777 | a sealed request verifies exactly while its age is within the window, on either side |
| TrustedContext.SealedKeepsHeaders | src/gateway/gateway.cpp:736-744 | sealing fails only if the keyed hash does, and touches no header but its own two |
| TrustedContext.TrustedContextSigner.Seal | src/gateway/gateway.cpp:736-744 | stamps and signs the request; a failed hash leaves the stamp and nothing else |
| TrustedContext.TrustedContextSigner.Verify | src/gateway/gateway.cpp:746-777 | accepts exactly the fresh requests whose 64-digit signature is the keyed hash of their payload |
| RateLimiter.TokenBucketRateLimiter.Create | src/gateway/gateway.cpp:541-551 | exactly the valid policies make a limiter, and it starts empty |
| RateLimiter.TokenBucketRateLimiter.Allow | src/gateway/gateway.cpp:561-590 | one call is one step of the lazy limiter, and keeps named buckets within their number and capacity, whatever the clock reads |
| RateLimiter.StepRefines | src/gateway/gateway.cpp:561-590 | one lazy call does what the eagerly refilled limiter does, and keeps the number of named buckets within the limit |
| RateLimiter.TicksAdvance | src/gateway/gateway.cpp:581-586 | refilling and capping every millisecond amounts to one refill over the whole time |
| RateLimiter.LazyRefinesTicks | src/gateway/gateway.cpp:561-590 | for a clock that does not go back, every run decides as a limiter refilled and capped every millisecond, bucket by bucket |
| RateLimiter.DenialsErasable | src/gateway/gateway.cpp:561-590 | deleting any set of refused calls changes no other answer, nor which keys fall to the overflow bucket |
| RateLimiter.AdmittedExactly | src/gateway/gateway.cpp:561-590 | in every run with a clock that does not go back, a call that names a key and costs something up to the capacity is admitted if and only if, counting from every earlier call and from itself, what was admitted from its bucket and what it costs stay within the capacity and the refill since then; which keys have their own bucket follows from the calls alone |
| RateLimiter.WindowBound | src/gateway/gateway.cpp:561-590 | between any two calls of any run, with instants in any order, the cost admitted from one bucket is at most the capacity plus the refill rate times the seconds between the earliest and the latest instant |
| RateLimiter.FirstInstantIsNotEnough | src/gateway/gateway.cpp:561-590 | with instants out of order the first call's instant does not do for the earliest: a concrete run |
| RateLimiter.TotalBound | src/gateway/gateway.cpp:561-590 | the cost admitted over all keys in any run, with instants in any order, is at most (maximumKeys + 1) times the capacity plus the refill rate times the seconds between the earliest and the latest instant |
| LoadBalancer.StaticServiceDiscovery.Set | src/gateway/gateway.cpp:474-492 | registers exactly named services with endpoints and no endpoint twice, and changes nothing otherwise |
| LoadBalancer.WeightedRoundRobin.Choose | src/gateway/gateway.cpp:506-531 | fails exactly when no weight is left; otherwise returns the endpoint whose share covers the counter's slot and advances the 64-bit counter |
| LoadBalancer.WindowIsFair | src/gateway/gateway.cpp:506-531 | over as many calls as the total weight each endpoint is returned exactly its weight times and an excluded one never, from any counter value, if the counter does not wrap or the total divides 2^64 |
| LoadBalancer.WindowCount | src/gateway/gateway.cpp:506-531 | across the wrap an endpoint is returned as often as its share overlaps the arc drawn before the wrap and the arc from zero on, in closed form |
| LoadBalancer.FairExactly | src/gateway/gateway.cpp:506-531 | an endpoint is returned exactly its weight times if and only if the counter does not wrap or the endpoint owns as many slots of the arc drawn before the wrap as of the arc that the wrap cuts off |
| LoadBalancer.AllFairExactly | src/gateway/gateway.cpp:506-531 | all endpoints get their weights if and only if the counter does not wrap or none of them gains or loses by the wrap |
| LoadBalancer.CoversExactly | src/gateway/gateway.cpp:520-527 | such a window draws every slot if and only if the counter does not wrap on the way or the total divides 2^64 |
| LoadBalancer.WrapIsUnfair | src/gateway/gateway.cpp:520-527 | weights 1 and 2 over three calls across the wrap: the lighter endpoint is chosen twice |
| LoadBalancer.WeightAvailable | src/gateway/gateway.cpp:457-492 | a registered endpoint that is not excluded leaves weight to choose from |
| CircuitBreaker.Breaker.Create | src/gateway/gateway.cpp:599-608 | exactly positive thresholds and durations make a breaker |
| CircuitBreaker.Breaker.Allow | src/gateway/gateway.cpp:616-629 | the endpoint's entry takes the admission transition, and no other entry changes |
| CircuitBreaker.Breaker.RecordSuccess | src/gateway/gateway.cpp:631-635 | the endpoint's entry is fresh again, and no other entry changes |
| CircuitBreaker.Breaker.RecordFailure | src/gateway/gateway.cpp:637-646 | the endpoint's entry takes the failure transition, 32-bit count and opening instant included, and no other entry changes |
| Dispatch.CircuitInvariant | src/gateway/gateway.cpp:616-646 | under every interleaving a circuit is closed exactly while fewer failures than the threshold were reported since its last success, and half open exactly while its probe is in flight, with an admitted attempt yet to report; the reports are the answers heard in the run, failures being transport errors and statuses outside 100 to 499 |
| Dispatch.NeverStuck | src/gateway/gateway.cpp:616-646 | with nothing outstanding and the open duration elapsed since the last failure, a circuit admits |
| Dispatch.AdmissionExactly | src/gateway/gateway.cpp:616-646 | under every interleaving an attempt is admitted if and only if fewer failures than the threshold were reported since the last success, or no probe is out and the open duration has passed since the failure that opened the circuit, read off the run |
| Dispatch.OpenedByLastFailure | src/gateway/gateway.cpp:637-646 | unless 2^32 failures came in a row, the failure that opened a circuit is the last one reported |
| Dispatch.ProbeIsAlone | src/gateway/gateway.cpp:616-646 | once a probe is admitted, no other attempt to the endpoint is admitted until a report about the endpoint arrives |
| Dispatch.HalfOpenExactly | src/gateway/gateway.cpp:616-646 | while nobody else is admitted, a probed circuit stays half open if and only if no report about its endpoint has arrived |
| Dispatch.SecondProbeExactly | src/gateway/gateway.cpp:616-646 | beside a probe under way the next attempt is admitted if and only if another attempt reported first, and that report was a success or the open duration has passed since it |
| Dispatch.SecondProbeNeedsStaleReport | src/gateway/gateway.cpp:616-646 | in any run, if an attempt is admitted while a probe is still under way, an attempt other than the probe reported in between |
| Dispatch.TwoProbesTogether | src/gateway/gateway.cpp:616-646 | a concrete run in which a late report lets a second probe out beside the first |
| Dispatch.BalancerSucceeds | src/gateway/gateway.cpp:910-912 | while an endpoint is left the balancer finds one: its failure exits are unreachable |
| Dispatch.RequestAdvances | src/gateway/gateway.cpp:910-932 | every action keeps the request's invariant, and every action of its own brings it closer to its end |
| Dispatch.BookkeepingIsTrue | src/gateway/gateway.cpp:905-932 | the lists that a request keeps are the admissions and refusals of its asks along the run, in order |
| Dispatch.DispatchGuarantees | src/gateway/gateway.cpp:905-936 | under every interleaving the asks of a request that circuits admit name no endpoint twice and number at most one, or two for a retryable method; a request that ends with none was refused by every endpoint's circuit; and it ends after boundedly many actions |
| Dispatch.OutcomeExactly | src/gateway/gateway.cpp:905-936 | a request ends with what its last answer means: the upstream's own status if it is one from 100 to 599, a timeout if it timed out, unavailability otherwise; it ends with a response, or when sent as often as its method allows, or when every endpoint was asked |
| Dispatch.Gateway.Forward | src/gateway/gateway.cpp:905-936 | the loop is a run of the machine from the state of the shared breaker and balancer, leaves them as that run does, and returns what the answer to its last send means, all earlier answers being transport errors |
| Device.InMemoryDeviceAuthorizationStore.Add | src/oauth/device.cpp:239-250 | refuses a known device or user code; otherwise both maps gain the grant; the maps stay consistent |
| Device.InMemoryDeviceAuthorizationStore.FindByUserCode | src/oauth/device.cpp:252-266 | finds exactly pending, unexpired grants, and changes nothing |
| Device.InMemoryDeviceAuthorizationStore.Approve | src/oauth/device.cpp:268-286 | a pending, unexpired grant takes the session's claims; anything else is refused and changes nothing |
| Device.InMemoryDeviceAuthorizationStore.Deny | src/oauth/device.cpp:288-301 | a pending, unexpired grant is denied; anything else is refused and changes nothing |
| Device.InMemoryDeviceAuthorizationStore.Poll | src/oauth/device.cpp:303-342 | answers in the order wrong client, expired, denied, consumed, too early, approved, pending, and stores the grant only in the last three |
| Device.StepConsistent | src/oauth/device.cpp:239-342 | every operation keeps the two maps mirroring each other |
| Device.StepKeepsInv | src/oauth/device.cpp:239-342 | every operation keeps the store in agreement with the log of operations and replies |
| Device.StoreIsHistory | src/oauth/device.cpp:239-342 | along every run, whatever the clock does, the two maps hold exactly what the log of operations and answers says was added, decided, polled and delivered |
| Device.AnswersExactly | src/oauth/device.cpp:239-342 | every answer of every run is the one that the earlier operations and answers call for, for all five operations |
| Device.ApprovalExactly | src/oauth/device.cpp:303-342 | a poll delivers an approval if and only if its client's grant was approved and not yet delivered, has not expired, and is polled no earlier than the interval in force after the last effective poll; and it is denied if and only if the grant was denied and has not expired |
| Device.ApprovedAtMostOnce | src/oauth/device.cpp:303-342 | along every run the maps are consistent and a device code is answered with approval at most once |
| Device.ApprovalIsGenuine | src/oauth/device.cpp:155-342 | an approval answers the grant's own client before expiry with the claims of a session that approved its user code before expiry, on a grant that was added |
| Device.BackOff | src/oauth/device.cpp:193-342 | after n answers to slow down the interval is the initial one plus n times five seconds; unthrottled polls are the interval then in force apart; k of them satisfy (k - 1) * initial < lifetime |
| Device.DeadForever | src/oauth/device.cpp:155-342 | once denied, consumed or expired, a grant never changes, and every later operation that names it is refused |
| Device.RefusalsLeaveNoTrace | src/oauth/device.cpp:239-342 | without its refused operations a run ends in the same store and gives the same answers to the rest |
| Device.WrongClientIsInvisible | src/oauth/device.cpp:303-342 | a poll by another client, put anywhere into any run, is refused and changes neither the store nor any other answer |
| PasswordRecord.PowerOfTwoMeaning | src/credentials/credentials.cpp:56-59 | the bit trick finds exactly the powers of two above one |
| PasswordRecord.PolicyExactly | src/credentials/credentials.cpp:232-256 | a policy is accepted exactly if its cost is a power of two up to 2^20, its other factors are within their bounds, and its memory ceiling covers the work factor and is at most 256 MiB; the overflow checks never decide |
| PasswordRecord.ValidArgon2Encoding | src/credentials/credentials.cpp:89-108 | accepts exactly the Argon2id records within the work-factor bounds |
| PasswordRecord.Parse | src/credentials/credentials.cpp:272-283 | accepts exactly Argon2id encodings and texts of eight fields tagged scrypt and v1 with none of the others empty |
| PasswordRecord.Hash | src/credentials/credentials.cpp:340-354 | fails exactly when derivation fails; otherwise writes the record of the policy, the salt and the derived key |
| PasswordRecord.Verify | src/credentials/credentials.cpp:356-406 | the verdict that the record's own fields give: malformed, out of policy, or whether derivation gives the recorded key |
| PasswordRecord.NeedsRehash | src/credentials/credentials.cpp:417-442 | whether the record's four work factors differ from the policy's, as texts |
| PasswordRecord.RecordParses | src/credentials/credentials.cpp:272-354 | every record that was written has the accepted shape |
| PasswordRecord.RecordVerdict | src/credentials/credentials.cpp:340-406 | verifying a record under any password asks exactly whether its work factors are within policy, the password has 8 to 1024 bytes, and keyed hash and scrypt under the recorded factors and salt give the recorded key |
| PasswordRecord.HashVerifies | src/credentials/credentials.cpp:232-406 | for every accepted policy, salt and password, a record that was written parses and is confirmed by the same password under the same pepper, whatever the verifier's own policy |
| PasswordRecord.RecordStaleness | src/credentials/credentials.cpp:417-442 | a written record is current under a policy if and only if it was written with the same four work factors |
| PasswordRecord.HashThenVerify | src/credentials/credentials.cpp:118-442 | the whole trip over the operations themselves: hashing succeeds exactly on passwords of 8 to 1024 bytes for which the primitives do, and whatever is hashed parses, verifies with the same password, and is current exactly under the same work factors |
| Json.EscapeJsonString | src/foundation/json.cpp:26-66 | the escaped text, closed by a quotation mark, reads back as the string that was escaped |
| Json.StringRoundTrip | src/foundation/json.cpp:26-66 | a reader of section 7 of RFC 8259 undoes the escaping and stops at the closing mark |
| Json.NumberRoundTrip | src/foundation/json.cpp:96-101 | printed integers have no leading zeros and read back |
| Json.ValueRoundTrip | src/foundation/json.cpp:68-148 | any rendered value, nested to any depth, reads back as itself, and the reader stops right behind it |
| Json.RoundTrip | src/foundation/json.cpp:140-148 | the whole text of a value is well formed and stands for that value alone |
| Json.JsonObjectWriter.BeginEntry | src/foundation/json.cpp:68-80 | a comma exactly if something precedes, then the quoted key and a colon |
| Json.JsonObjectWriter.AddString | src/foundation/json.cpp:82-94 | adds one string entry behind the others |
| Json.JsonObjectWriter.AddInteger | src/foundation/json.cpp:96-101 | adds one integer entry behind the others |
| Json.JsonObjectWriter.AddBoolean | src/foundation/json.cpp:103-108 | adds one boolean entry behind the others |
| Json.JsonObjectWriter.AddNested | src/foundation/json.cpp:121-126 | appends the key, then the nested writer as it then stands: the text reads back as the entries plus the nested object if and only if the nested writer is another one, and is no JSON at all otherwise |
| Json.NestingExactly | src/foundation/json.cpp:121-126 | for every body, key and nested body: nesting another writer adds one object entry, and nesting a writer in itself makes text that cannot be read |
| Json.SelfNestedExample | src/foundation/json.cpp:121-126 | an empty writer nested in itself under `a` prints `{"a":{"a":}}`, which is not JSON |
| Json.JsonObjectWriter.AddNull | src/foundation/json.cpp:128-133 | adds one null entry behind the others |
| Json.JsonObjectWriter.Empty | src/foundation/json.cpp:135-138 | true exactly if nothing was added |
| Json.JsonObjectWriter.Build | src/foundation/json.cpp:140-148 | the text reads back as exactly the entries that were added, in order, if no writer was nested in itself here or in a writer nested here, and cannot be read otherwise |
| Handoff.ResultRoundTrip | src/authentication/service.cpp:1075-1176 | a published authentication reads back unchanged exactly if its factor bits are at most 7 and its instant is not negative, and not at all otherwise |
| Handoff.Lifetime | src/authentication/service.cpp:1002-1003 | a handoff lives for the smaller of two minutes and the operator's maximum |
| Handoff.DigestRoundTrip | src/authentication/service.cpp:55-86 | a digest written in hexadecimal is read back |
| Handoff.TicketMeaning | src/authentication/service.cpp:1111-1122 | a ticket parses exactly if it is two non-empty dotless texts around one dot, at most 256 bytes long, and into those two |
| Handoff.InMemoryAuthenticationTransactionStore.Begin | src/identity/provider/transaction.cpp:244-260 | refuses a known identifier and changes nothing then |
| Handoff.InMemoryAuthenticationTransactionStore.Consume | src/identity/provider/transaction.cpp:177-287 | succeeds exactly on a pending, unexpired transaction with matching secret and binding; whatever it answers, the transaction is no longer pending |
| Handoff.InMemoryAuthenticationTransactionStore.PurgeExpired | src/identity/provider/transaction.cpp:301-315 | removes exactly the expired transactions and counts them |
| Handoff.AuthenticationService.IssueBrowserAuthenticationHandoff | src/authentication/service.cpp:967-1024 | issues the publisher's transaction, the two tickets and their deadline, or nothing |
| Handoff.AuthenticationService.PublishBrowserAuthenticationHandoff | src/authentication/service.cpp:1026-1105 | takes the publisher's ticket and stores the result, as the two steps of the machine do |
| Handoff.AuthenticationService.RedeemBrowserAuthenticationHandoff | src/authentication/service.cpp:1107-1213 | consumes the redeeming ticket and answers as the machine does |
| Handoff.AuthenticationService.IssueBrowserConnectionHandoff | src/authentication/service.cpp:883-925 | issues a connection transaction and its ticket, or nothing |
| Handoff.AuthenticationService.ConsumeBrowserConnectionHandoff | src/authentication/service.cpp:927-965 | consumes the connection ticket and answers as the machine does |
| Handoff.StepKeepsInv | src/authentication/service.cpp:883-1213 | every atomic step, those of ordinary authentication and of purging included, keeps store, publications in flight and log in agreement |
| Handoff.StagesHappenOnce | src/authentication/service.cpp:967-1213 | in every run redemptions <= publications <= consumed publisher tickets <= issues <= 1 for each handoff, and connections <= connection issues <= 1 |
| Handoff.IssueExactly | src/authentication/service.cpp:967-1024 | exactly when a handoff is issued; otherwise nothing changes |
| Handoff.TakeExactly | src/authentication/service.cpp:1026-1074 | in every reachable state a publisher's ticket is taken if and only if it is pending, in time, matched, and the authentication is of the provider its issue named |
| Handoff.IssueConnectionExactly | src/authentication/service.cpp:883-925 | exactly when a connection handoff is issued; otherwise nothing changes |
| Handoff.ConnectExactly | src/authentication/service.cpp:927-965 | in every reachable state a connection ticket leads somewhere if and only if it is pending, in time, matched, and the identity is active |
| Handoff.RedemptionIsGenuine | src/authentication/service.cpp:967-1213 | a redemption returns exactly the authentication that was presented with the publisher's ticket after the issue and before the result was stored, under the provider the issue named, before the issue's expiry, to a secret with the digest fixed at issue |
| Handoff.RedeemExactly | src/authentication/service.cpp:1107-1213 | in every reachable state a ticket redeems if and only if its result is pending, in time, matched, the presented authentication is in range, and the server still trusts it |
| Handoff.WrongEndpoint | src/authentication/service.cpp:927-1127 | a ticket of one purpose yields nothing at an endpoint of another, and is spent by trying |
| Handoff.ConnectedTicket | src/authentication/service.cpp:927-965 | an accepted connection ticket was pending and in time, and leads to the identity, provider and target it was issued with |
| Handoff.UndisturbedHandoff | src/authentication/service.cpp:967-1213 | whatever others do between issuing, taking, storing and redeeming, short of presenting its tickets, drawing its identifiers or purging it before its time, a handoff delivers the authentication that was presented |
| Handoff.UndisturbedConnection | src/authentication/service.cpp:883-965 | a connection handoff that nobody else presents, draws or purges leads where it was issued to lead |
| EmailChange.AccountService.AttachVerified | src/identity/core/link.cpp:258-291 | attaching is idempotent for one owner and never transfers from another |
| EmailChange.AccountService.DetachLink | src/identity/core/link.cpp:305-327 | detaches exactly the owner's own link |
| EmailChange.AccountService.EnrollPending | src/providers/local/local.cpp:117-136 | adds an account bound to the identity under a valid, unused subject |
| EmailChange.AccountService.RemovePendingAccount | src/providers/local/local.cpp:168-181 | removes exactly the identity's own account |
| EmailChange.AccountService.RebindSubject | src/providers/local/local.cpp:138-166 | moves an account the identity may have to an unused valid subject, and binds it |
| EmailChange.AccountService.FindLocal | src/account/service.cpp:550-557 | finds a local connection of the identity exactly if there is one |
| EmailChange.AccountService.CompleteEmailChange | src/account/service.cpp:513-665 | runs the ordered writes and compensations; a reversible request is all-or-nothing under any forward faults |
| EmailChange.RebindBack | src/providers/local/local.cpp:138-166 | rebinding there and back restores the accounts exactly if the account was bound, and is possible exactly if the old subject is valid |
| EmailChange.ReversibleIsAtomic | src/account/service.cpp:513-665 | under every pattern of forward faults a reversible request completes, leaves everything as it was, or fails at the last detachment with only the old link left over, or at the last release with the change complete |
| EmailChange.IrreversibleIsNot | src/account/service.cpp:559-658 | for any other request a failed save leaves neither the old state nor the new one |
| EmailChange.AtomicExactly | src/account/service.cpp:513-665 | the change is all-or-nothing under all forward faults if and only if the request is reversible |
| EmailChange.UnboundAccountStaysBound | src/account/service.cpp:633-658 | a concrete failed change that leaves an unbound account bound |
| EmailChange.FaultlessExactly | src/account/service.cpp:513-665 | when no call fails by itself, the change completes if and only if the identity holds the reservation and has a profile, and no repository objects |
| EmailChange.ChangeExactly | src/account/service.cpp:513-665 | what a reversible request leaves behind, fault by fault: nothing after an objection or an early failure, the new email beside the old link if detaching that fails, the completed change if the last release fails |
| EmailChange.ReservationEnds | src/account/service.cpp:530-665 | once the reservation was confirmed the call ends without it, and leaves every other reservation alone |
| Totp.AccountService.CommitTotpEnrollment | src/account/service.cpp:888-909 | refuses if the authenticator state changed since it was read; otherwise the identity's other and all expired enrollments go and the new one is added |
| Totp.AccountService.BeginTotpEnrollment | src/account/service.cpp:856-912 | both steps, when nothing comes between them |
| Totp.AccountService.CompleteTotpEnrollment | src/account/service.cpp:914-974 | installs, rejects and counts, or refuses, erasing the enrollment when it expired, was installed or met its fifth rejection |
| Totp.AccountService.DisableTotp | src/account/service.cpp:976-1012 | erases the identity's enrollments before anything that may fail, and removes the authenticator last, as the machine does |
| Totp.RunKeepsInv | src/account/service.cpp:856-1012 | every interleaving of reads, commits, completions and disablings keeps the invariant below |
| Totp.SystemIsHistory | src/account/service.cpp:856-1012 | in every admissible run the subjects with an authenticator, the pending enrollments and those being started are exactly what the log says |
| Totp.EnabledExactly | src/account/service.cpp:960-1012 | a subject has an authenticator if and only if the last installation or disabling for it in the log is an installation, or there is none and it had one from the start |
| Totp.AnswersExactly | src/account/service.cpp:856-1012 | every answer of every admissible run is the one that the earlier events call for |
| Totp.PendingIsCurrent | src/account/service.cpp:856-1012 | each identity has at most one pending enrollment, whose flag equals whether its subject has an authenticator |
| Totp.FiveRejections | src/account/service.cpp:960-973 | no enrollment is rejected more than five times, and none survives its fifth rejection |
| Totp.ReplacementIsAuthorized | src/account/service.cpp:943-973 | an authenticator is replaced only by a strong session completing what a strong session began, and the state-changed exit of completion is unreachable |
| AccountRepository.InMemoryAccountRepository.Replace | src/account/repository.cpp:50-64 | erases the challenges of the same identity and purpose and adds the new one, keeping one per slot |
| AccountRepository.InMemoryAccountRepository.Consume | src/account/repository.cpp:66-98 | refuses, counts a wrong guess, or returns the challenge, erasing it when expired, exhausted or returned |
| AccountRepository.InMemoryAccountRepository.ReserveSubject | src/account/repository.cpp:100-125 | grants or extends unless another identity's unexpired reservation stands |
| AccountRepository.InMemoryAccountRepository.FindReservedOwner | src/account/repository.cpp:127-138 | the owner of the unexpired reservation, if any |
| AccountRepository.InMemoryAccountRepository.ReleaseSubject | src/account/repository.cpp:140-153 | removes the owner's reservation and refuses anybody else |
| AccountRepository.OnePerSlotKept | src/account/repository.cpp:50-98 | every operation keeps at most one challenge per identity and purpose |
| AccountRepository.GuessesAreBounded | src/account/repository.cpp:50-98 | in every run a challenge is compared with at most the limit of digests and returned at most once, and each slot has one challenge |
| AccountRepository.ChallengesAreHistory | src/account/repository.cpp:50-98 | in every steady run exactly the live challenges are stored, with the guesses that the log shows |
| AccountRepository.ConsumeExactly | src/account/repository.cpp:66-98 | a presented digest is accepted if and only if it matches a challenge that is the latest of its slot, was not returned, not guessed at too often and did not lapse, concerns the caller and has not expired; another digest for such a challenge is a mismatch, and everything else is refused |
| AccountRepository.ReturnIsGenuine | src/account/repository.cpp:66-98 | what is returned was issued, is unexpired, belongs to the expected identity and was matched by the presented digest |
| AccountRepository.ReservationsAreLeases | src/account/repository.cpp:100-153 | the map of reservations is exactly what the log of accepted reservations and releases says |
| AccountRepository.ReserveExactly | src/account/repository.cpp:100-125 | a well-formed reservation is refused if and only if the log shows another identity's lease in force |
| AccountRepository.ReleaseExactly | src/account/repository.cpp:140-153 | a release is refused if and only if the log shows another identity's lease |
| AccountRepository.LeaseIsExclusive | src/account/repository.cpp:100-153 | a lease stays with its owner and everybody else is refused until its current expiry or the owner's release |
| AccountRepository.OwnerExactly | src/account/repository.cpp:127-138 | the reported owner is the holder of the lease in force |
| Consent.NormalizeScopes | src/consent/model.cpp:18-37 | accepts exactly 1 to 256 valid scopes and returns them in strict order, with the same set of scopes |
| Consent.NormalFormUnique | src/consent/model.cpp:18-37 | a set of scopes has exactly one normal form |
| Consent.ScopeMeaning | src/client/model.cpp:191-206 | a scope is 1 to 128 printable ASCII characters other than the space, the quotation mark and the backslash |
| Consent.Contains | src/consent/model.cpp:162-167 | binary search finds exactly the members of an ordered list |
| Consent.InMemoryConsentRepository.Save | src/consent/repository.cpp:27-42 | revokes every active grant about the same subject at the new grant's instant, stores the new one, and touches no other |
| Consent.InMemoryConsentRepository.FindActive | src/consent/repository.cpp:44-61 | returns an active grant about the subject if there is one, and nothing otherwise |
| Consent.InMemoryConsentRepository.Revoke | src/consent/repository.cpp:79-95 | revokes the identity's own grant, keeping the first instant of revocation, and refuses anything else |
| Consent.OneActive | src/consent/repository.cpp:27-61 | after any orderly history a grant is active if and only if it is the most recent about its subject, was not withdrawn and has not expired |
| Consent.CoversExactly | src/consent/service.cpp:24-36 | whatever the order of scanning, the grant found covers the scopes if and only if the most recent grant is unrevoked, unexpired and contains all of them |
| Consent.ConsentService.Covers | src/consent/service.cpp:24-36 | the answer is the one that the history of the repository gives |
| Consent.ConsentService.GrantConsent | src/consent/service.cpp:38-77 | exactly valid requests are granted; the history stays orderly, and at every later instant exactly the granted scopes are covered, for exactly the requested lifetime |

## Left out

- Real cryptography, random generation and constant-time comparison: functions and values given as parameters, and plain equality.
- Floating-point rounding in the rate limiter: tokens, capacity and rate are real numbers; non-finite arguments, which the source refuses, do not exist here.
- RateLimiter.LazyRefinesTicks: instants do not decrease in the order in which calls obtain the lock; the source reads its clock just before locking, so a late caller may bring an earlier instant. The same holds for RateLimiter.DenialsErasable and RateLimiter.AdmittedExactly; the bounds on admitted cost need no order.
- Gateway.handle before dispatch (routing, sessions, authorization, header stripping) and the transport: long chains of separate checks and input or output.
- Endpoint.create: host and port checks are left out; only identifier and weight matter to the balancer. Total weights are unbounded numbers, as a sum of weights up to 1000 stays far below 2^64.
- Device scopes: sorting and validation of the scopes of a device grant, which only add easy members beside those of consent.
- PasswordRecord: the Argon2id branches of hashing and verifying; the build without libsodium is modelled, in which they fail. The record's text checks for Argon2id are included.
- Json: double entries and their formatting; the reference reader decodes `\u` escapes in the ASCII range, the only ones the writer emits, and accepts no insignificant whitespace.
- Handoff: provider trust, identity lifecycle and link ownership at redemption are three booleans; metadata keys and the reserved provider names are constructors of a datatype, so no ordinary provider has a reserved name.
- EmailChange: presentation data stored beside links, and delivery of the confirmation message.
- Totp: purging reads the clock once for all enrollments, where the source reads it for each; codes themselves and recovery codes are parameters.
- AccountRepository.GuessesAreBounded: the limit is the same for all calls and identifiers are not reused, as the service that owns the repository arranges.
- Postgres repositories, HTTP endpoints, configuration, client SDKs, PAR, DPoP, JAR, SAML, LDAP and SCIM.
