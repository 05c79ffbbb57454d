# Gate contract and its host runtime: a verified model

This project models two parts of the gatekeeper repository and proves properties of
them with Dafny.

**The mandate contract** (`gate-contract/src/gate.rs`). A tenant stores a mandate; an
agent asks for actions. The contract decides, checks that a credential was shown for
this very action, keeps a spending total per day, and makes the outbound call at most
once per idempotency key.

| module | file | what it holds |
|---|---|---|
| `Mandates` | `Mandate.dfy` | `decide`, its rules, and when one mandate is tighter than another |
| `Texts`, `Requests` | `Text.dfy`, `Requests.dfy` | strings as bytes, decimal text, idempotency keys, headers, verbs |
| `Binding` | `Binding.dfy` | the length-prefixed preimage and the credential commitment |
| `AgentBinding` | `AgentBinding.dfy` | the agent's side of the commitment (`agent/src/credential-binding.mjs`) and its agreement with the contract's |
| `Velocity` | `Velocity.dfy` | the daily spend gate and its runs |
| `Dispatch` | `Dispatch.dfy` | `execute_action`, its runs, and the log of outbound calls |

**The component runtime** (`agent/gate-wasm/gate_contract.js`). The JavaScript glue that
runs the compiled contract: it moves values through linear memory, hands out handles,
schedules tasks and guards the component with a lock.

| module | file | what it holds |
|---|---|---|
| `Utf8` | `Utf8.dfy` | UTF-16 strings, the UTF-8 sizing loop, encoder and decoder |
| `AbiLayout`, `AbiMemory` | `AbiLayout.dfy`, `AbiMemory.dfy` | types with their sizes and alignments; what it means that memory holds a value; the reference loader |
| `GateTypes` | `GateTypes.dfy` | the types of the gate's imports with the generated module's own numbers |
| `AbiLower`, `AbiLift` | `AbiLower.dfy`, `AbiLift.dfy` | the encoder and decoder, and the round trip |
| `RepTables` | `RepTable.dfy` | the slot allocator with its in-band free list |
| `ResourceTables` | `ResourceTable.dfy` | the flag-coded resource table with the capture table |
| `Locks` | `Lock.dfy` | the owned lock, its FIFO queue and the deferred hand-off |
| `Scheduler` | `Scheduler.dfy` | suspended tasks, the tick, tombstones |
| `Tasks` | `Tasks.dfy` | tasks and subtasks: completion, cancellation, rejection |
| `Programs` | `Program.dfy` | nested calls between guest and host, and what follows for the component's flags |
| `HostCalls` | `HostCalls.dfy` | what synchronous host calls leave of tasks, subtasks and handles |
| `ExportCall` | `ExportCall.dfy` | the export wrapper and its clean-up on every outcome |

Objects that the source updates in place are classes. Each of their methods is tied to a
function on snapshots of the state, and the theorems about runs are proved about these
functions. Host calls (key-value reads and writes, HTTP, the clock, secrets, the guest's
allocator, guest code) are inputs of a step, failures included. SHA-256 with hex is an
arbitrary function from bytes to text; results that need it say `CollisionFree`.

Some results show where the code gives less than one may expect:

- `Velocity.CapNeedsHeadroom`: the daily cap binds if and only if the limit is below
  2^64 - 1; at that value the total saturates and any amount is approved.
- `Dispatch.CallsAgainIff`: an approved retry calls out again exactly unless its record
  is there and can be read; a record that was not written does not protect it.
- `HostCalls.LowerImport`, `HostCalls.CallerSees`: a host call whose exception passes the
  trampoline by stays in its caller's list for good, and does not reject its caller, which
  only the export wrapper does once the exception has left the guest.  Such a call, like
  one that is rejected, keeps its handle; calls that return, error payloads included, give
  theirs back, and a call that is refused takes none.
- `ResourceTables.ResourceTable.Remove`: a handle that was never issued is accepted and
  goes on the free chain; only handle 0 and handles already free are rejected.
- `Programs.LockedOut`, `Programs.ShutInside`: after a failed post-return function the
  component may not leave; the next host call, of a later export or of the guest that is
  still running, traps it for good.
- `Programs.ExportFollows`: runtime errors met while arguments are lowered or in a
  post-return function do not mark the component as trapped.
- `ResourceTables.DisposedOnceIff`: a host object is disposed at most once if and only if
  the host never hands it out twice.
- `Locks.HandlerRuns`: a release handler runs again for every handler before it that calls
  the component synchronously.  The handlers registered in the file only resolve promises
  and run once each (`Locks.WakersRunOnce`); the other case needs another registrant.
- `Tasks.Task.Resolve`: with several results the task becomes resolved, but nothing is
  delivered to its parent.
- `AbiLift.RoundTrip`: a string comes back unchanged if and only if it has no lone
  surrogate and no leading byte order mark, since the decoder drops one.

`dafny verify dfyconfig.toml` checks the whole project.

## Model

| member | source | states |
|---|---|---|
| `Mandates.ListAllows` | gate-contract/src/gate.rs:265-267 | deny by default: a list allows a value exactly when it lists the value or the wildcard |
| `Mandates.Decide` | gate-contract/src/gate.rs:274-343 | approved if and only if all eight rules hold; otherwise exactly one reason for each rule that fails, in the fixed order |
| `Mandates.DecideTerms` | gate-contract/src/gate.rs:277-300 | the reasons due to the activation time, the expiry, the kind and the asset |
| `Mandates.DecideParties` | gate-contract/src/gate.rs:301-323 | the reasons due to the opt-in payee and issuer lists, a missing value being told from a value not listed |
| `Mandates.DecideAmount` | gate-contract/src/gate.rs:324-340 | the reasons due to the global cap and to the payee's sub-limit, which applies in addition |
| `Mandates.NoReasons` | gate-contract/src/gate.rs:342 | an empty list of reasons means the same as all rules holding |
| `Mandates.ReasonsOrdered` | gate-contract/src/gate.rs:274-343 | reasons follow the order of the rules and no rule is reported twice |
| `Mandates.ApprovesIff` | gate-contract/src/gate.rs:274-343 | approval is one conjunction of independent conditions: a time interval, four lists, and one cap per payee |
| `Mandates.ApprovesExact` | gate-contract/src/gate.rs:274-343 | the same in terms of the fields alone: bounds that 0 switches off, lists with their wildcard, opt-in lists that an empty list switches off, the cap and the sub-limit |
| `Mandates.ReasonsExact` | gate-contract/src/gate.rs:277-340 | each reason is given exactly when its own condition on action, mandate and time holds, and carries the values of the mandate and the action |
| `Mandates.ReasonsRanked` | gate-contract/src/gate.rs:277-340 | the reasons given stand in one fixed order and none is given twice |
| `Mandates.MonotoneInAmount` | gate-contract/src/gate.rs:324-340 | lowering the amount of an approved action keeps it approved |
| `Mandates.AcceptedTimes` | gate-contract/src/gate.rs:277-288 | the times at which an approvable action is accepted are exactly one interval, 0 meaning no bound |
| `Mandates.CoversIff` | gate-contract/src/gate.rs:262-267 | a list is as strict as another, wildcards counted, exactly when it allows no value the other refuses |
| `Mandates.OptInCoversIff` | gate-contract/src/gate.rs:301-323 | the same for opt-in lists, where an empty list enforces nothing |
| `Mandates.TighterIsSafe` | gate-contract/src/gate.rs:274-343 | a mandate tighter in every dimension approves no action, at no time, that the looser one rejects |
| `Mandates.TighterIsExact` | gate-contract/src/gate.rs:274-343 | for a mandate that approves anything at all, being tighter is also necessary for that |
| `Texts.FromUtf8Exact` | gate-contract/src/gate.rs:480 | bytes decode to a string exactly when they are its UTF-8 encoding |
| `Texts.StringBytesInjective` | gate-contract/src/gate.rs:115 | two strings have the same bytes exactly when they are the same string |
| `Texts.ParsePrinted` | gate-contract/src/gate.rs:480-489 | parsing the decimal text of any u64 gives that number back |
| `Texts.ParseAccepts` | gate-contract/src/gate.rs:479 | every spelling of a number, with zeros or a plus sign before it, is read as that number, and as nothing from 2^64 on |
| `Texts.ParseOnly` | gate-contract/src/gate.rs:479 | nothing else is read as a number |
| `Texts.DecimalDenotes` | gate-contract/src/gate.rs:125 | decimal text read from its first digit on gives the number back, and starts with no zero |
| `Texts.ToDecimalInjective` | gate-contract/src/gate.rs:125 | decimal text tells numbers apart |
| `Requests.TrimExact` | gate-contract/src/gate.rs:45 | trimming removes the White_Space around a text and nothing else |
| `Requests.TrimSplits` | gate-contract/src/gate.rs:45 | every text is its trimmed core between blanks |
| `Requests.KeyAccepted` | gate-contract/src/gate.rs:44-61 | surrounding blanks do not matter: the core is the key exactly when it has 1 to 128 permitted characters, and means "no key" exactly when it is empty and none is required |
| `Requests.KeyErrors` | gate-contract/src/gate.rs:44-61 | which error a key gives: none although one is required, more than 128 bytes, or a character outside the alphabet; and the key in use is the trimmed text |
| `Requests.ValidKeyExact` | gate-contract/src/gate.rs:53-59 | well-formed keys have 1 to 128 letters, digits, hyphens, underscores and colons |
| `Requests.KeyNormalised` | gate-contract/src/gate.rs:44-61 | an accepted key is well formed, and normalising it again changes nothing |
| `Requests.Contains` | gate-contract/src/gate.rs:68-70 | the body has the profile marker at some position, or is sent without substitution |
| `Requests.WhitespaceExact` | gate-contract/src/gate.rs:45 | what is trimmed are the 25 characters with the property White_Space |
| `Requests.VerbExact` | gate-contract/src/gate.rs:671-677 | the verb is POST, PUT, PATCH or DELETE exactly when the name in capitals is that word, and GET otherwise |
| `Requests.UpperExact` | gate-contract/src/gate.rs:671 | capitalising changes the 26 small letters, each to its capital, and nothing else |
| `Requests.AuthHeaders` | gate-contract/src/gate.rs:754-770 | a bearer header exactly when a credential is named; an error exactly when it is named and missing or empty |
| `Binding.BigEndianDenotes` | gate-contract/src/gate.rs:114 | the eight bytes before a part, read most significant first, are its length |
| `Binding.FeedAndHash` | gate-contract/src/gate.rs:108-118 | feeding the hasher part by part hashes the concatenation of all length-prefixed parts |
| `Binding.PreimageInjective` | gate-contract/src/gate.rs:108-118 | the length-prefixed concatenation determines the list of parts, however many and however long |
| `Binding.CheckBinding` | gate-contract/src/gate.rs:148-180 | no binding is an error exactly when one is required; an accepted one carries the commitment for this action and no other issuer than the action names |
| `Binding.BindingExact` | gate-contract/src/gate.rs:148-180 | which error a binding gives, and that it is accepted exactly with a nonce, the commitment for this action, and no other issuer named |
| `Binding.ActionDigestPins` | gate-contract/src/gate.rs:121-128 | two actions have one digest exactly when kind, asset, amount and counterparty agree, a missing counterparty counting as the empty one |
| `Binding.CommitmentPins` | gate-contract/src/gate.rs:132-141 | two commitments agree exactly when issuer, subject, claims, nonce and the terms of the action do |
| `Binding.OneBindingOneAction` | gate-contract/src/gate.rs:148-180 | a binding accepted for one action is accepted for another exactly when the terms agree and the other action names no other issuer |
| `Binding.CommitmentNotTransferable` | gate-contract/src/gate.rs:148-180 | one commitment is never accepted with two different credentials or for two different terms |
| `AgentBinding.Sha256Hex` | agent/src/credential-binding.mjs:32-42 | the agent's loop hashes length, as eight literal big-endian bytes, and bytes of every part in turn |
| `AgentBinding.FedIsPreimage` | agent/src/credential-binding.mjs:32-42 | what the agent feeds its hasher is the preimage the contract hashes, for any parts |
| `AgentBinding.ActionDigestsAgree` | agent/src/credential-binding.mjs:45-52 | both languages compute one digest for an action that reaches the enclave, a missing counterparty included |
| `AgentBinding.CommitmentsAgree` | agent/src/credential-binding.mjs:55-64 | both languages compute one commitment: same domain, same parts, same order |
| `AgentBinding.BindCredential` | agent/src/credential-binding.mjs:89-107 | refuses an unverified credential, then a missing issuer or subject; otherwise commits to credential, nonce and action |
| `AgentBinding.BoundIsAccepted` | agent/test/credential-binding.test.mjs:67-76 | a binding the agent built is accepted by the contract for its action if and only if that names no other issuer |
| `AgentBinding.BoundIsForItsAction` | agent/test/credential-binding.test.mjs:78-95 | and for another action if and only if its terms are the same and it names no other issuer |
| `AgentBinding.CommitmentsSeparate` | agent/test/credential-binding.test.mjs:123-131 | two bindings the agent built carry one commitment if and only if credential, random nonce and terms are the same |
| `Velocity.DayBucketIff` | gate-contract/src/gate.rs:464-466 | the bucket of a time is d followed by the decimal number of its UTC day, its seconds divided by 86400; two times share it exactly when these quotients are equal |
| `Velocity.SpendGate.Spend` | gate-contract/src/gate.rs:469-509 | the stored map and the response after one call, for every outcome of the read and the write |
| `Velocity.AnswerExact` | gate-contract/src/gate.rs:484-509 | an answer is an error exactly when the read fails or an approved total is not stored; otherwise it approves exactly what still fits, and reports the total found, the total now, what remains, the limit, the day and the window asked for |
| `Velocity.NewDayRenews` | gate-contract/src/gate.rs:464-494 | the limit renews: after any run without a call on the UTC day of `now`, an amount within the limit is approved, with nothing spent before |
| `Velocity.TotalStored` | gate-contract/src/gate.rs:480-489 | a total that was stored is read back as the same number |
| `Velocity.TotalExact` | gate-contract/src/gate.rs:478-481 | whatever bytes are stored for a day count as the number they spell, and as nothing spent if they spell none |
| `Velocity.TotalAfter` | gate-contract/src/gate.rs:480-494 | a counted call adds its amount, saturating, to its own day, and leaves every other day's entry as it is |
| `Velocity.ApprovalCounts` | gate-contract/src/gate.rs:484-503 | an approved call was counted, and the total is within the limit it gave |
| `Velocity.RejectionIsFree` | gate-contract/src/gate.rs:484-503 | a rejected call changes nothing, reports the total it found, and would not have fitted |
| `Velocity.WindowIgnored` | gate-contract/src/gate.rs:474-477 | the window a caller asks for changes nothing but its echo |
| `Velocity.TotalIsSum` | gate-contract/src/gate.rs:480-494 | after any run the total of a day is the sum of the amounts counted that day, capped at 2^64 - 1, whatever the clock and the failures |
| `Velocity.TextIsSum` | gate-contract/src/gate.rs:480-494 | from an empty map the text stored for a day always decodes, and is that sum in decimal |
| `Velocity.ApprovedIsAdmitted` | gate-contract/src/gate.rs:487-494 | unless a write takes effect and yet reports failure, the calls counted are exactly those approved |
| `Velocity.DailyCap` | gate-contract/src/gate.rs:484-494 | with one limit below 2^64 - 1, what is counted on a day never exceeds it |
| `Velocity.ApprovedCap` | gate-contract/src/gate.rs:484-503 | nor does what is approved on a day, also when a write takes effect and yet fails |
| `Velocity.CapNeedsHeadroom` | gate-contract/src/gate.rs:484-485 | the daily cap holds in all runs if and only if the limit is below 2^64 - 1 |
| `Velocity.NothingLost` | gate-contract/src/gate.rs:496-503 | with such a limit every response, approved or not, accounts for all of it: spent plus remaining |
| `Velocity.WindowWithinDays` | gate-contract/src/gate.rs:464-466 | what is counted in an interval of W seconds is at most what is counted on the (W-1)/86400 + 2 days it can meet |
| `Velocity.SlidingWindowCap` | gate-contract/src/gate.rs:464-494 | what is approved in any interval of W seconds is at most the limit times (W-1)/86400 + 2 |
| `Velocity.TwiceTheLimitInADay` | gate-contract/src/gate.rs:464-494 | at most twice the limit is approved in any 24 hours |
| `Dispatch.Judge` | gate-contract/src/gate.rs:617-641 | approved exactly when decision, binding and key are all in order; the reasons are those of the decision, then the binding's, then the key's |
| `Dispatch.PassesExact` | gate-contract/src/gate.rs:617-641 | the judgement in the open: the mandate approves; the binding is right, or absent and not required; the trimmed key is well formed, or empty and not required |
| `Dispatch.ReasonsExact` | gate-contract/src/gate.rs:626-641 | the reasons are exactly those of the policy, the binding's error and the key's error, in this order |
| `Dispatch.ErrorsExact` | gate-contract/src/gate.rs:605-745 | which error ends an invocation: the mandate cannot be read, is missing or malformed; the secret cannot be read or is missing or empty; or a crash |
| `Dispatch.ReplyExact` | gate-contract/src/gate.rs:643-745 | what every reply carries: decision, reasons, time, action digest, the commitment shown, and whether it was dispatched or replayed |
| `Dispatch.SecretsAsked` | gate-contract/src/gate.rs:678-691 | the secret is read once, by its name in the mandate, and only for a call that is to go out |
| `Dispatch.Enclave.DispatchApproved` | gate-contract/src/gate.rs:681-735 | the secret is read first; then one call is logged; then the record is written, unless the key is missing, the write is lost, or a crash comes first |
| `Dispatch.Enclave.ExecuteAction` | gate-contract/src/gate.rs:605-745 | records, log, secrets read and reply after one invocation, for every combination of host answers |
| `Dispatch.StepEffect` | gate-contract/src/gate.rs:660-735 | an invocation adds one outbound call or none, and touches a record only when it calls |
| `Dispatch.CallBudget` | gate-contract/src/gate.rs:605-745 | over any run the calls under a key are at most one for its record, plus the failed reads of it, plus the calls whose record was not written |
| `Dispatch.AtMostOneCall` | gate-contract/src/gate.rs:660-735 | while reads and writes work, no key is ever called under twice |
| `Dispatch.RecordStays` | gate-contract/src/gate.rs:660-735 | while they work, a record is never overwritten and its key never called under again |
| `Dispatch.LaterCallsReplay` | gate-contract/src/gate.rs:660-679 | after a recorded call, every later approved invocation with its key makes no call, changes nothing and returns the first response |
| `Dispatch.CallsAgainIff` | gate-contract/src/gate.rs:796-808 | for an approved retry with its secret in order: a call is made exactly unless its record is there and can be read, so a lost record and a failed read both lead to a second call |
| `Dispatch.CallsJustified` | gate-contract/src/gate.rs:605-745 | in every run each outbound call was made by an invocation of its own, in the order of the log, whose stored mandate, clock, action, binding and key passed, with that request's url and body, the verb its method names, substitution exactly when the body contains the marker, and with a bearer header exactly when the mandate names a credential |
| `Dispatch.BoundIssuerAllowed` | gate-contract/src/gate.rs:148-180 | when the mandate lists issuers and a credential is bound, the issuer inside the binding is one the list allows |
| `Dispatch.LoggedKeysNormal` | gate-contract/src/gate.rs:44-61 | keys in the log are in normal form, so no two spellings of one key are called under separately |
| `Dispatch.RejectedTouchesNothing` | gate-contract/src/gate.rs:660-691 | an invocation that is not approved reads no secret, makes no call and writes no record, and says why |
| `Dispatch.ReplyHonest` | gate-contract/src/gate.rs:643-745 | a reply says dispatched exactly when a call went out, carries that call's or the recorded response, and a record written is the response reported; an error after a call means a crash |
| `Dispatch.RejectionHasReasons` | gate-contract/src/gate.rs:624-641 | the list of reasons is empty exactly when the action is approved |
| `Utf8.Measure` | agent/gate-wasm/gate_contract.js:85-108 | the loop's byte length is that of the UTF-8 encoding (section 3 of RFC 3629, lone surrogates replaced) and its count the number of scalar values, for every string |
| `Utf8.EncodeIntoExact` | agent/gate-wasm/gate_contract.js:109-113 | given that many bytes of room the platform encoder consumes the whole string, so the check after it never fails |
| `Utf8.EncodeIntoWhole` | agent/gate-wasm/gate_contract.js:109-113 | it consumes the whole string exactly when the room is at least the length of the encoding, so no smaller allocation would do |
| `Utf8.FirstExact` | agent/gate-wasm/gate_contract.js:85-108 | a surrogate pair stands for the character of section 2.2 of RFC 2781, a surrogate on its own for U+FFFD |
| `Utf8.Octets` | agent/gate-wasm/gate_contract.js:109-113 | the octets of a character are those of the table in section 3 of RFC 3629 |
| `Utf8.DecodeFront` | agent/gate-wasm/gate_contract.js:2634-2663 | on any bytes the decoder takes a character when its encoding stands at the front, and otherwise replaces exactly a maximal subpart: as many bytes as can begin a character, but at least one |
| `Utf8.DecodeEncodeScalars` | agent/gate-wasm/gate_contract.js:2634-2663 | decoding an encoding gives the scalar values back |
| `Utf8.TextRoundTrip` | agent/gate-wasm/gate_contract.js:2634-2663 | a string survives encoding and decoding if and only if it has no lone surrogate and no leading byte order mark |
| `AbiLayout.SlotPlace` | agent/gate-wasm/gate_contract.js:3150-3175 | a field's aligned slot lies inside its record, after the fields before it |
| `AbiLayout.PayloadPlace` | agent/gate-wasm/gate_contract.js:3177-3220 | a case's payload is aligned, lies inside its variant and does not overlap the tag |
| `AbiLayout.ElemPlace` | agent/gate-wasm/gate_contract.js:3270-3290 | a list element is aligned and lies inside the list's block |
| `AbiMemory.HoldsFrame` | agent/gate-wasm/gate_contract.js:3051-3342 | a stored value is unaffected by any write that spares its slot and its blocks |
| `AbiMemory.HoldsLoad` | agent/gate-wasm/gate_contract.js:2560-3016 | memory that holds a value loads as that value with its strings decoded |
| `AbiMemory.DecodedPlain` | agent/gate-wasm/gate_contract.js:2634-2663 | decoding leaves a value as it is exactly when all its strings survive the text round trip |
| `AbiMemory.LittleEndian32` | agent/gate-wasm/gate_contract.js:3083-3097 | a word that is stored has its least significant byte first, touches four bytes, and is read back from exactly such bytes |
| `AbiMemory.LittleEndian16` | agent/gate-wasm/gate_contract.js:3066-3081 | the same for half a word |
| `AbiMemory.LoadText` | agent/gate-wasm/gate_contract.js:2634-2663 | text is found by the address in the word at its place and the length in the next |
| `AbiMemory.LoadField` | agent/gate-wasm/gate_contract.js:2702-2751 | each field of a record is read at its offset |
| `AbiMemory.LoadPosition` | agent/gate-wasm/gate_contract.js:2969-3016 | each element of a tuple is read at its offset |
| `AbiMemory.LoadCase` | agent/gate-wasm/gate_contract.js:2755-2876 | the byte at a variant's place numbers its case, and the payload is read at the payload's offset |
| `AbiMemory.LoadItem` | agent/gate-wasm/gate_contract.js:2878-2967 | element i of a list is read i element sizes after the address in its first word, as many as the second word says |
| `GateTypes.RequestOffsets` | agent/gate-wasm/gate_contract.js:7830-7873 | the layout equations give the request record the module's own 36 bytes on alignment 4, with fields at 0, 4, 12 and 24 |
| `GateTypes.RequestLayout` | agent/gate-wasm/gate_contract.js:7830-7873 | all numbers in the metadata of the request parameter, nested ones included, are those of the Canonical ABI |
| `GateTypes.ResponseLayout` | agent/gate-wasm/gate_contract.js:7876-7881 | the same for the response record, whose payload stands at 4 |
| `GateTypes.ResultLayouts` | agent/gate-wasm/gate_contract.js:7875-7895 | the same for the results of the HTTP and key-value imports |
| `GateTypes.RequestRead` | agent/gate-wasm/gate_contract.js:7830-7873 | a request is read as verb, text and two options at those offsets |
| `GateTypes.VerbRead` | agent/gate-wasm/gate_contract.js:7831-7832 | the byte of the verb: 0 to 4 for get, post, put, patch and delete, and an error from 5 on |
| `GateTypes.PrimitiveLayout` | agent/gate-wasm/gate_contract.js:7838-7881 | sizes and alignments of numbers, text and lists are those the generated code passes |
| `AbiLower.LowerCtx.Utf8AllocateAndEncode` | agent/gate-wasm/gate_contract.js:85-116 | allocates a fresh block that holds exactly the encoding, or traps in the allocator; it never fails otherwise, and on every outcome writes nothing else |
| `AbiLower.LowerCtx.LowerFlat` | agent/gate-wasm/gate_contract.js:3051-3342 | for every type: memory then holds the value in its slot and fresh blocks, and only the allocator can fail; on every outcome, such a failure half way included, bytes in use elsewhere are unchanged |
| `AbiLower.LowerCtx.LowerRecord` | agent/gate-wasm/gate_contract.js:3150-3175 | the same for a record, fields taken by name in order |
| `AbiLower.LowerCtx.LowerTuple` | agent/gate-wasm/gate_contract.js:3319-3342 | the same for a tuple |
| `AbiLower.LowerCtx.LowerVariant` | agent/gate-wasm/gate_contract.js:3177-3220 | the same for a variant: a one-byte tag, then the payload at its offset |
| `AbiLower.LowerCtx.LowerList` | agent/gate-wasm/gate_contract.js:3222-3317 | the same for a list: pointer and length in line, elements in a fresh aligned block |
| `AbiLower.LowerCtx.LowerString` | agent/gate-wasm/gate_contract.js:3113-3124 | the same for a string |
| `AbiLift.LiftCtx.LiftFlat` | agent/gate-wasm/gate_contract.js:2560-3016 | on every memory, also malformed ones, lifting is the Canonical ABI load: same value or an error, and a sufficient storage budget never makes it fail |
| `AbiLift.LiftCtx.LiftRecord` | agent/gate-wasm/gate_contract.js:2702-2751 | the same for a record |
| `AbiLift.LiftCtx.LiftVariant` | agent/gate-wasm/gate_contract.js:2755-2876 | the same for a variant; a tag out of range is an error |
| `AbiLift.LiftCtx.LiftList` | agent/gate-wasm/gate_contract.js:2878-2967 | the same for a list; a misaligned data pointer is an error |
| `AbiLift.RoundTrip` | agent/gate-wasm/gate_contract.js:2560-3342 | lowering then lifting gives back the value exactly when its strings have no lone surrogate or leading byte order mark; on every outcome nothing outside the slot and fresh blocks is written |
| `RepTables.InsertFresh` | agent/gate-wasm/gate_contract.js:372-393 | a new rep was not live, and inserting changes no other entry |
| `RepTables.RemoveThenInsert` | agent/gate-wasm/gate_contract.js:372-434 | the rep freed last is the next one issued |
| `RepTables.InsertThenRemove` | agent/gate-wasm/gate_contract.js:372-434 | removing what was inserted restores the live entries |
| `RepTables.Census` | agent/gate-wasm/gate_contract.js:356-436 | live and freed reps together are exactly the issued ones |
| `RepTables.EntriesKept` | agent/gate-wasm/gate_contract.js:372-434 | in any run a live entry stays as it is until it is itself removed |
| `RepTables.Reused` | agent/gate-wasm/gate_contract.js:381-392 | taking the head of the in-band chain leaves an acyclic chain through exactly the other freed slots |
| `RepTables.Freed` | agent/gate-wasm/gate_contract.js:414-434 | freeing a live rep puts it at the head of the chain and changes nothing else |
| `RepTables.RepTable.Insert` | agent/gate-wasm/gate_contract.js:372-393 | refines the abstract insertion; the corrupt-freelist error is not an outcome |
| `RepTables.RepTable.Get` | agent/gate-wasm/gate_contract.js:395-403 | the live value, nothing for a freed or unknown rep, an error for 0 |
| `RepTables.RepTable.Contains` | agent/gate-wasm/gate_contract.js:405-412 | true exactly for live reps |
| `RepTables.RepTable.Remove` | agent/gate-wasm/gate_contract.js:414-434 | succeeds exactly on live reps, and tells zero, empty table, out of range and double removal apart |
| `RepTables.RepTable.Size` | agent/gate-wasm/gate_contract.js:436 | the size field counts the live entries |
| `ResourceTables.ReusedOwn` | agent/gate-wasm/gate_contract.js:120-134 | reusing the head of the flag-coded free chain keeps the chain acyclic and adds one live handle |
| `ResourceTables.Unlinked` | agent/gate-wasm/gate_contract.js:135-146 | an accepted removal puts the handle at the head of the chain and takes it from the live ones |
| `ResourceTables.FlagExact` | agent/gate-wasm/gate_contract.js:118-146 | setting, clearing and testing the flag concern bit 30, and keep the lower 30 bits |
| `ResourceTables.CaptureBalanced` | agent/gate-wasm/gate_contract.js:3928-3935 | a captured object and its handle extend the one-to-one correspondence |
| `ResourceTables.DropBalanced` | agent/gate-wasm/gate_contract.js:7095-7106 | dropping a live handle takes a capture that was not dropped before, and keeps the correspondence |
| `ResourceTables.CountDrops` | agent/gate-wasm/gate_contract.js:7095-7106 | an object is disposed as often as captures of it were dropped |
| `ResourceTables.DisposedOnceIff` | agent/gate-wasm/gate_contract.js:4224-4229 | whatever handles are dropped, each host object is disposed at most once if and only if none was captured twice |
| `ResourceTables.SameObjectTwice` | agent/gate-wasm/gate_contract.js:4224-4229 | an object handed out twice is captured twice, and disposed twice when both handles are dropped |
| `ResourceTables.ResourceTable.CreateOwn` | agent/gate-wasm/gate_contract.js:120-134 | the handle was not live; it now holds the rep and every other live handle is as before |
| `ResourceTables.ResourceTable.Remove` | agent/gate-wasm/gate_contract.js:135-146 | rejected exactly for handle 0 and free handles; a live handle gives its rep; one never issued owns nothing |
| `ResourceTables.ResourceTable.Capture` | agent/gate-wasm/gate_contract.js:3928-3935 | a host object enters the table under a fresh handle, one to one |
| `ResourceTables.ResourceTable.Drop` | agent/gate-wasm/gate_contract.js:7095-7106 | dropping a live handle disposes the object of its capture, each capture once ever; any other handle disposes nothing |
| `Locks.Safety` | agent/gate-wasm/gate_contract.js:650-766 | in every run the tasks granted the lock and not yet releasing it are exactly the recorded holder; a queue behind a free lock has its hand-off due; a scheduled hand-off finds a waiter |
| `Locks.FirstInFirstOut` | agent/gate-wasm/gate_contract.js:671-694 | in every run, tasks handed the lock followed by those still queued are the queue followed by those that joined: none lost, none overtaken |
| `Locks.WaitersTurn` | agent/gate-wasm/gate_contract.js:737-756 | a waiter loses one position per hand-off grant and gets the lock on its turn |
| `Locks.HandoffServesHead` | agent/gate-wasm/gate_contract.js:737-756 | when nobody holds the lock and somebody waits, the hand-off grants it to the head of the queue |
| `Locks.ForeignReleaseIgnored` | agent/gate-wasm/gate_contract.js:697-713 | a release changes the lock exactly when it comes from the holder |
| `Locks.AcquireEffect` | agent/gate-wasm/gate_contract.js:671-694 | a request takes a free lock at once, joins the queue last, or is refused to the holder itself; it is never lost |
| `Locks.ExclusiveLockEffect` | agent/gate-wasm/gate_contract.js:653-670 | a synchronous entry takes a free lock and otherwise changes nothing |
| `Locks.ReleaseEffect` | agent/gate-wasm/gate_contract.js:697-735 | a release clears the holder, and a hand-off is due afterwards exactly when it was or somebody waits |
| `Locks.HandoffEffect` | agent/gate-wasm/gate_contract.js:737-756 | a hand-off gives a free lock to the first waiter and leaves a held one alone |
| `Locks.ComponentLock.ExclusiveLock` | agent/gate-wasm/gate_contract.js:653-670 | takes a free lock and throws on a held one |
| `Locks.ComponentLock.AcquireExclusiveLock` | agent/gate-wasm/gate_contract.js:671-694 | takes a free lock, throws for its holder, queues anyone else last |
| `Locks.ComponentLock.ExclusiveRelease` | agent/gate-wasm/gate_contract.js:697-735 | the holder's release clears the lock, runs the registered handlers in a known order and schedules the hand-off, through handlers that call the component and release in turn; any other release changes nothing |
| `Locks.HandlerRuns` | agent/gate-wasm/gate_contract.js:715-732 | a release runs each registered handler once, and once more for every handler before it that calls the component synchronously |
| `Locks.UnfoldShape` | agent/gate-wasm/gate_contract.js:715-732 | a release runs every handler in its place; the call made by the first synchronous one finds all handlers after it, and those of later ones find none |
| `Locks.WakersRunOnce` | agent/gate-wasm/gate_contract.js:762-766 | handlers that only resolve promises, the only ones registered in the file, run once each, in order |
| `Locks.ReleaseFrees` | agent/gate-wasm/gate_contract.js:697-735 | whatever its handlers do, a holder's release leaves the lock free with a hand-off due to a waiter |
| `Locks.ComponentLock.OnNextExclusiveRelease` | agent/gate-wasm/gate_contract.js:757-760 | the handler joins the end of those the next release runs |
| `Locks.ComponentLock.HandoffMicrotask` | agent/gate-wasm/gate_contract.js:737-756 | the deferred hand-off: postponed while the lock is held, else to the first waiter |
| `Scheduler.BoundedWaiting` | agent/gate-wasm/gate_contract.js:859-906 | a task that stays ready with p suspended tasks ahead is resumed within p + 1 ticks, whatever is suspended meanwhile |
| `Scheduler.OnlyAwakeResumed` | agent/gate-wasm/gate_contract.js:859-906 | a tick resumes at most one task, and none that is neither ready nor rejected |
| `Scheduler.Tombstone` | agent/gate-wasm/gate_contract.js:771-783 | putting a tombstone on an entry takes exactly that task out of the queue |
| `Scheduler.TaskScheduler.AddSuspendedTaskMeta` | agent/gate-wasm/gate_contract.js:784-793 | the task joins the end of the queue; compaction does not change the queue |
| `Scheduler.TaskScheduler.SuspendTask` | agent/gate-wasm/gate_contract.js:795-832 | a suspended task is queued and the tick loop is running; suspending it twice throws |
| `Scheduler.TaskScheduler.ResumeTaskByID` | agent/gate-wasm/gate_contract.js:834-840 | the task leaves the queue, the others keep their order |
| `Scheduler.TaskScheduler.Tick` | agent/gate-wasm/gate_contract.js:859-906 | resumes exactly the earliest suspended task that is ready or rejected |
| `Scheduler.TaskScheduler.LoopTurn` | agent/gate-wasm/gate_contract.js:841-857 | the loop stops only when nothing is suspended |
| `Tasks.RunSafety` | agent/gate-wasm/gate_contract.js:1089-1251 | under every interleaving of creation, completion, cancellation and rejection, subtask histories are legal paths that only grow, a resolved subtask keeps its state and result, a returned one has a result, every on-resolve handler runs at most once, and no task's state goes back |
| `Tasks.RunDelivered` | agent/gate-wasm/gate_contract.js:1233-1250 | in every run the resolution of a synchronous call is delivered exactly when there is a result, once, and its handle is free from then on |
| `Tasks.HandlersKept` | agent/gate-wasm/gate_contract.js:2044-2046 | in every run a handler once registered is still registered or has run |
| `Tasks.HandlerRunsOnce` | agent/gate-wasm/gate_contract.js:1976-1986 | a handler registered when its task completes or acknowledges a cancellation has run exactly once from then on, in every run |
| `Tasks.TaskResolveEffect` | agent/gate-wasm/gate_contract.js:2076-2112 | a completed task has run all its handlers, in order, and none is left; a pending parent subtask has the value, and without one nothing else changed |
| `Tasks.CancelEffect` | agent/gate-wasm/gate_contract.js:1962-1974 | the same for an acknowledged cancellation |
| `Tasks.ResolveEffect` | agent/gate-wasm/gate_contract.js:1167-1251 | a resolved subtask is returned with the value, or cancelled if it acknowledges a request; it leaves its parent's list, a synchronous one frees its handle, and nothing else changes |
| `Tasks.AcceptedIff` | agent/gate-wasm/gate_contract.js:1184-1198 | a value is accepted exactly after the start, or before it as the acknowledgement of a requested cancellation |
| `Tasks.ReturnedOnlyByResolution` | agent/gate-wasm/gate_contract.js:1184-1198 | no operation but a resolution makes a subtask returned, and then it has a result |
| `Tasks.RejectCancels` | agent/gate-wasm/gate_contract.js:1149-1165 | every subtask on the path of a rejection ends cancelled before its start or before its return, according to its state, and every task on it has run all its handlers |
| `Tasks.ChainExact` | agent/gate-wasm/gate_contract.js:2053-2074 | the path leads from an unsettled task over its pending parent subtask to the task above |
| `Tasks.RequestEffect` | agent/gate-wasm/gate_contract.js:1089-1110 | a cancellation request makes a running callee pending once, counts a host call as cancelled, and changes no settled subtask |
| `Tasks.SmallEffects` | agent/gate-wasm/gate_contract.js:1039-1044 | delivering a cancellation, registering a handler and linking a child each change that one field |
| `Tasks.CreateSubEffect` | agent/gate-wasm/gate_contract.js:2170-2199 | a new subtask is starting, last of its parent's list, and owns its handle |
| `Tasks.CreateTaskEffect` | agent/gate-wasm/gate_contract.js:1551-1567 | a new task is in its initial state with the one handler that settles its promise |
| `Tasks.StartEffect` | agent/gate-wasm/gate_contract.js:1116-1142 | a start changes the state of that subtask and nothing else |
| `Tasks.ResultExact` | agent/gate-wasm/gate_contract.js:2091-2112 | a task delivers its first result, or undefined without one |
| `Tasks.EnabledExact` | agent/gate-wasm/gate_contract.js:1089-1251 | which operations can be done, by the states and flags of task and subtask alone |
| `Tasks.WithoutExact` | agent/gate-wasm/gate_contract.js:2216-2222 | removing a subtask from a list takes out its entry and keeps the order of the others |
| `Tasks.CancelHandshake` | agent/gate-wasm/gate_contract.js:1921-1974 | a cancellation requested of a subtask with a running callee can be delivered and then acknowledged, which resolves the callee and cancels the subtask without a value |
| `Tasks.RunQuiet` | agent/gate-wasm/gate_contract.js:1946-2112 | in every run no rejection stays half done and records only move on |
| `Tasks.TerminalIsLast` | agent/gate-wasm/gate_contract.js:1116-1142 | on a legal path a terminal state is entered at most once and never left |
| `Tasks.StepEvolves` | agent/gate-wasm/gate_contract.js:1089-1251 | each operation only moves records on, and leaves no rejection half done |
| `Tasks.Step` | agent/gate-wasm/gate_contract.js:1946-2112 | each operation keeps the invariant of the forest: lists, handles, parents and children agree |
| `Tasks.LateValueDiscarded` | agent/gate-wasm/gate_contract.js:1996-2041 | a value that arrives after its subtask settled changes no subtask and no handle |
| `Tasks.ResolveWf` | agent/gate-wasm/gate_contract.js:1167-1251 | an unresolved subtask is listed with its parent, owns its handle and has no result yet, so resolving it cannot fail half way |
| `Tasks.DeliveryWf` | agent/gate-wasm/gate_contract.js:1976-2042 | a task that completes or acknowledges a cancellation can always deliver to a pending parent subtask |
| `Tasks.RejectWf` | agent/gate-wasm/gate_contract.js:1149-1165 | a rejection ends, whatever the height of the tree, and keeps the invariant of the forest |
| `Tasks.RejectExtent` | agent/gate-wasm/gate_contract.js:2053-2074 | a rejection leaves every task up to the first settled one rejected and resolved, its handlers run and the subtasks in between off their parents' lists, and changes no other task |
| `Tasks.RejectReach` | agent/gate-wasm/gate_contract.js:1149-1165 | it changes exactly the subtasks on that path, which it cancels, and no other |
| `Tasks.RejectQuiet` | agent/gate-wasm/gate_contract.js:2053-2074 | after a rejection its task is settled and no task is half rejected |
| `Tasks.ChainUnresolved` | agent/gate-wasm/gate_contract.js:2062-2066 | only unsettled tasks and unresolved subtasks are touched |
| `Tasks.TaskCancelEvolves` | agent/gate-wasm/gate_contract.js:1962-1974 | an acknowledged cancellation settles its task and a pending parent subtask, and only moves records on |
| `Tasks.CreateSubWf` | agent/gate-wasm/gate_contract.js:2170-2199 | creating a subtask keeps the invariant |
| `Tasks.SetChildWf` | agent/gate-wasm/gate_contract.js:1039-1044 | recording the backing task keeps the invariant; a parent is never its own child |
| `Tasks.RegisterWf` | agent/gate-wasm/gate_contract.js:2044-2046 | registering a handler keeps handlers from running twice |
| `Tasks.Task.RegisterOnResolveHandler` | agent/gate-wasm/gate_contract.js:2044-2046 | a registration adds one handler, last, and keeps the invariant of the forest |
| `Tasks.Task.OnResolve` | agent/gate-wasm/gate_contract.js:1976-2042 | all handlers registered run, in order, and none is left; then a pending parent subtask receives the value, or the rejection; no error is an outcome |
| `Tasks.Task.Resolve` | agent/gate-wasm/gate_contract.js:2076-2112 | throws on a resolved task, which it does not change, and on several results, when the task has become resolved but delivers nothing; otherwise all its handlers run and it delivers |
| `Tasks.Task.Cancel` | agent/gate-wasm/gate_contract.js:1962-1974 | throws exactly when no cancellation was delivered; otherwise settles the task and its subtask |
| `Tasks.Task.Reject` | agent/gate-wasm/gate_contract.js:2053-2074 | has exactly the effect of the abstract rejection; no error is an outcome |
| `Tasks.Task.RemoveSubtask` | agent/gate-wasm/gate_contract.js:2216-2222 | the list without the subtask, or the no-current-subtask error on an empty list |
| `Tasks.Task.CreateSubtask` | agent/gate-wasm/gate_contract.js:2170-2199 | the new subtask is listed last and holds a handle that was not in use |
| `Tasks.Task.RequestCancellation` | agent/gate-wasm/gate_contract.js:1946-1960 | a first request marks an unstarted task as pending; later ones, and ones after resolution, do nothing |
| `Tasks.Subtask.OnResolve` | agent/gate-wasm/gate_contract.js:1167-1251 | succeeds exactly on an unresolved subtask that has started, or was asked to cancel before; of a synchronous call no handle remains |
| `Tasks.Subtask.Reject` | agent/gate-wasm/gate_contract.js:1149-1165 | exactly the abstract rejection: a started subtask ends cancelled before its return, one not started cancelled before its start; neither the completed-subtask nor the no-current-subtask error is an outcome |
| `Tasks.Subtask.RequestCancellation` | agent/gate-wasm/gate_contract.js:1089-1110 | a second request throws; a backing task is asked, a host call is cancelled at once |
| `Tasks.Subtask.OnStart` | agent/gate-wasm/gate_contract.js:1116-1142 | the single start moves the subtask to its started state and keeps the invariant |
| `Tasks.Subtask.SetChildTask` | agent/gate-wasm/gate_contract.js:1039-1044 | succeeds once; the parent-as-child error is not an outcome |
| `HostCalls.RejectLocal` | agent/gate-wasm/gate_contract.js:2053-2074 | a rejection sees only what is reachable from its task, whatever else exists |
| `HostCalls.LowerImport` | agent/gate-wasm/gate_contract.js:2328-2452 | a synchronous host call has the outcome of its trampoline and, on tasks, lists and handles, exactly the effect of that outcome; each call below it that ends without a return keeps one handle more |
| `HostCalls.CallReturned` | agent/gate-wasm/gate_contract.js:1233-1250 | when the host task resolves, its subtask is returned with the value, its handle and list entry are gone, and all else is as before the call |
| `HostCalls.CallRejected` | agent/gate-wasm/gate_contract.js:4298-4309 | when the trampoline rejects, what was there before the call is exactly as if its caller had been rejected |
| `HostCalls.Dangling` | agent/gate-wasm/gate_contract.js:4398-4401 | when an exception passes the trampoline by, the call stays in its caller's list, started and unresolved, and the caller is not touched otherwise |
| `HostCalls.Leave` | agent/gate-wasm/gate_contract.js:4339-4437 | which of these a host function's end leads to: a result, an error payload handed on as one, a rejection, or an escape |
| `HostCalls.CallerSees` | agent/gate-wasm/gate_contract.js:2412-2452 | the caller's list is restored exactly unless the call escaped, the table of handles exactly when no host call in it, itself included, was rejected or escaped, and the caller is settled by the call exactly when the trampoline rejects |
| `HostCalls.GuestCalls` | agent/gate-wasm/gate_contract.js:2412-2452 | calls of one guest in order, up to the first that unwinds it: their effects compose |
| `HostCalls.RootLeaves` | agent/gate-wasm/gate_contract.js:6250-6263 | whatever the calls of an export's new task came to, what was there before it is unchanged |
| `HostCalls.CallBack` | agent/gate-wasm/gate_contract.js:6101-6327 | an export called by a host function is refused exactly when the component has trapped; otherwise a new task of its own runs the guest and is settled on every outcome, resolved if there is a result and rejected if not; nothing that was there before changes |
| `HostCalls.Settle` | agent/gate-wasm/gate_contract.js:6316-6323 | the end of an export settles its task: resolved after a result, rejected otherwise, whether or not a host call rejected it before |
| `HostCalls.CallBacks` | agent/gate-wasm/gate_contract.js:6101-6327 | any number of exports, one after the other: each that is not refused has a task of its own, which is still settled at the end |
| `ExportCall.Evaluate` | agent/gate-wasm/gate_contract.js:6101-6327 | on every outcome the task is resolved and exits exactly once, a free lock is free again with a hand-off due if someone waits, a lock held by another task still is; the task is rejected exactly when there is no result; and answer, flags and events are those of the abstract call, the answer being the payload of the guest's ok or error tag |
| `Programs.AnswerExact` | agent/gate-wasm/gate_contract.js:6250-6314 | a call answers ok or error with the guest's payload exactly when the guest was reached, its host calls returned and its tag says so; every failure has exactly one cause |
| `Programs.OutcomeExact` | agent/gate-wasm/gate_contract.js:4288-4437 | which outcome each end of a host function has, both ways: returned, error payload handed on, rejected, or passed by |
| `Programs.DeniedIff` | agent/gate-wasm/gate_contract.js:2348-2352 | a host call is refused exactly when the component may not leave |
| `Programs.GuestAppend` | agent/gate-wasm/gate_contract.js:6250-6263 | a guest makes its next host call exactly if all before it returned or were caught |
| `Programs.GuestReturns` | agent/gate-wasm/gate_contract.js:6250-6263 | if a guest gets to return, each of its host calls returned or was caught |
| `Programs.FlagsExact` | agent/gate-wasm/gate_contract.js:6250-6323 | both flags after one call, from those after its guest's host calls |
| `Programs.HostFlagsExact` | agent/gate-wasm/gate_contract.js:4288-4310 | both flags after one host call, from those after its callbacks |
| `Programs.ExportFollows` | agent/gate-wasm/gate_contract.js:6250-6323 | a call leaves the component trapped exactly when it was or when a WebAssembly runtime error was raised by a host function or came out of a guest, and able to leave exactly as the last post-return function run in it left it; runtime errors in lowering or post-return are not recorded |
| `Programs.HostFollows` | agent/gate-wasm/gate_contract.js:4395-4401 | the same for a host call with its callbacks |
| `Programs.TrapIsFinal` | agent/gate-wasm/gate_contract.js:521-523 | a trapped component refuses every later call and does not change |
| `Programs.ShutComponent` | agent/gate-wasm/gate_contract.js:2281-2285 | after a failed post-return function the next host call traps the component, and only a call that completes without one reopens it |
| `Programs.LockedOut` | agent/gate-wasm/gate_contract.js:2281-2285 | over any sequence of calls from then on: the first that reaches the host, unless one completed alone before, traps the component, and every later call is refused |
| `Programs.ShutInside` | agent/gate-wasm/gate_contract.js:2281-2285 | also inside a running guest: after a host call that left the component unable to leave, its next host call is refused and the component is trapped |
| `ExportCall.Guarded` | agent/gate-wasm/gate_contract.js:6131-6323 | the body of the wrapper's try block: what it answers, by the guest's tag and end, and leaves of the flags, and that it exits at most once and only a resolved task |
| `ExportCall.CallWasm` | agent/gate-wasm/gate_contract.js:6250-6263 | the guest's run leaves the lock as it is, and the task unresolved if the guest gets to return, so that resolving it never fails |
| `ExportCall.CallHost` | agent/gate-wasm/gate_contract.js:2348-2431 | a host call is refused when the component may not leave; its task is resolved meanwhile exactly when the trampoline rejects |
| `ExportCall.Callbacks` | agent/gate-wasm/gate_contract.js:1709-1729 | exports called while the guest runs enter without the lock and leave it as it is |
| `ExportCall.ExportTask.EnterSync` | agent/gate-wasm/gate_contract.js:1709-1729 | takes a free lock, or enters without it |
| `ExportCall.ExportTask.Exit` | agent/gate-wasm/gate_contract.js:2114-2156 | fails exactly when already exited, unresolved, or without the lock it should hold; otherwise releases its own hold only |

## Left out

- Direct-parameter lifting and lowering, UTF-16 strings, enums, options, results, own and borrow handles: no matching inverse in the file, or dependent on the shape of JavaScript objects.
- Variants with 256 or more cases: at exactly 256 the code writes a two-byte tag, for which the payload offsets of the metadata leave no room.
- Lists of known length, and the typed-array results of list lifting: only lists of unknown length as sequences are modelled.
- AbiLower.LowerCtx.LowerList: does not model the storage budget check after lowering, because the metadata carries no in-line size, the product is not a number and the comparison never holds.
- AbiLift.LiftCtx.LiftString: charges nothing to the storage budget, as the code does, which decrements a misspelt field.
- AbiLower.LowerCtx.Realloc: allocation requests of 4 GiB or more, and the signed addresses the guest returns above 2 GiB, count as a trap of the allocator.
- Locks.ComponentLock.ExclusiveRelease: release handlers do not throw, and none is registered while a release runs its handlers.
- Locks.ComponentLock.AcquireExclusiveLock: a task has at most one outstanding request.
- Scheduler.TaskScheduler.Tick: ready functions do not throw; timing (`setTimeout`) is not modelled.
- ResourceTables.ResourceTable.Capture: reps and handles stay below 2^30, and resources arrive without a preset rep.
- Tasks.Task.Resolve: the checks for borrowed handles, which never fire, because they read the length of an object that has none.
- Tasks.Task.OnResolve: the return and post-return hooks of a callee component are foreign code and do not change tasks; handlers do not throw.
- Tasks.Subtask.OnResolve: the lowering of an asynchronous result into the caller's memory is not connected with the memory model; handlers registered on subtasks are not modelled.
- Tasks.Subtask.OnStart: only the single call when the subtask is created; a second start is not modelled.
- Tasks.Task.constructor: the link to the parent subtask is given at creation; the setter that may be called once afterwards is not modelled.
- Tasks.Subtask.DeliverResolve: lenders are only the flag "delivered"; lent handles are not counted.
- HostCalls.LowerImport: the task that is created for calls without a current task, and asynchronous and manual-async lowering, are not modelled; a guest does not catch what a host call throws.
- HostCalls.Leave: of the conversions of arguments and results only whether they fail, and with what kind of error; the exit of the host task, which never returns an error here, is left out.
- ExportCall.ExportTask.Exit: when release handlers call the component, what their guests do to its flags, events and task counts is not part of the model; no such handler is registered in the file.
- ExportCall.Evaluate: exit handlers do not throw; the value conversion around the call is only the branch on the result tag.
- RepTables.RepTable.Remove: reps stay below 2^30, so that the doubled index does not wrap.
- Tasks.Task.RequestCancellation: the nudge of the tick loop and the progress callbacks and pending events of asynchronous calls are not modelled.
- ExportCall.Component.MarkTrapped: the flag is shared by the whole store in the code; one component is modelled.
- WebAssembly instantiation, the generator driver, import checks and debug logging: calls into the platform without logic of their own.
- `RepTable.clear`, `waitForBackpressure` and the event-handler registry: on no modelled path, and `clear` uses an undefined name.
- SHA-256 and hexadecimal text: an arbitrary function; collision-freeness is a premise where it is needed.
- AgentBinding.BindCredential: claims enter by their digest, which the enclave never recomputes; sorting and printing them is not modelled.
- AgentBinding.CommitmentsAgree: an amount is the integer that the JavaScript number prints as, which JSON carries too; an action with a fraction or a lone surrogate does not reach the enclave.
- JSON parsing and printing: a recorded response is replayed as the value that was recorded.
- HTTP transport, the text of reasons and of errors, logging, and the tenant's identity: reasons are tags, errors are names.
- Dispatch.Enclave.ExecuteAction: writes of the tenant's administrator to the map of dispatch records are not modelled; the mandate, in contrast, may change between invocations.
- Velocity.SpendGate.Put: a write that is reported as done is done.
- Dispatch.CallBudget, Velocity.TotalIsSum: each invocation of `execute_action` and `spend` is one atomic step; overlapping invocations, which could both read that there is no record, or the same total, are not modelled.
- `evaluate` and `dispatch_action`: thin wrappers over the decision and over one HTTP call.
- `gate_cli.rs`, `lib.rs`, `verify.mjs`, the console, the site and the video code: thin wrappers, user interface and I/O.
