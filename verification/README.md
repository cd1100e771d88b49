# Verification of the Ledger Bitcoin application

A Dafny model of the hard parts of the Ledger Bitcoin application and its Python and Rust clients, with proofs about
every input and every run. `dafny verify dfyconfig.toml` checks all of it.

Code that changes things step by step is modelled by methods with loops, arrays and classes; each is proved equal to a
mathematical description, and the properties are proved about that description. Hash functions, signatures, key
derivation, the user and the other end of the line are parameters: they may do anything that their description allows.

| part | modules | main results |
|---|---|---|
| Miniscript types | BitcoinScript, ScriptNumbers, ScriptRelations, Miniscript, StackShape, CombinatorSoundness, LeafSoundness, TypeSoundness, Dissatisfaction, OneInput, SampleScripts, LeafExactness, RuleExactness, RuleAcceptance, ThreshExactness | the flags of the parser are sound for the consensus interpreter; for every flag that a rule leaves out and every type that it rejects there are scripts and a run that show why; the exact exceptions |
| Miniscript analysis | MiniscriptAnalysis, Satisfaction, StackSizeExact, SignatureFlags, UnsignedRuns, TimelockFlags, TimelocksExact, ScriptSize, ScriptBytes | stack sizes, script size and opcode count are exact, and so are the signature and timelock flags; the script in bytes |
| Satisfactions | ScriptEffects, SatisfactionRuns, CanonicalRuns | every canonical satisfaction really satisfies the script |
| Script emission | PolicyEmitter, PolicyMachine, EmittedRuns | the stack machine of the device, exactly when it writes the script of BIP 379, and what its script does otherwise |
| Policy layout | PolicyArena, PolicyReader, PolicyParser | the parsed policy can be read back from its byte buffer |
| Signing | Psbt, SigningConsent, SignPsbt, SigningProperties, SigningInBytes, RequestInBytes | nothing is signed that the user did not consent to, what is confirmed is what is hashed, and all of it in the bytes of the request |
| Merkle trees | Merkle, RustMerkle, DeviceMerkle, PythonMerkle | three implementations agree, updates equal rebuilding, proofs are sound and complete |
| Client protocol | Streaming, HashedLists, ClientProtocol, ClientKnowledge, ClientSessions, ClientInterpreter, RustInterpreter | streams lose nothing, committed maps are looked up correctly, both clients answer alike, over whole sessions |
| Addresses | Base58, Base58Loops, KnownBase58, Bech32, Bech32Strings, Bech32Canonical, Bech32Words, ConvertBits, SegwitAddress, KnownAddresses, AddressErrors | refinement of the big-integer form, canonical encodings, error detection, published addresses |
| Text | Taptree, TaptreeParser, DoubleDabble | print and parse round trip, exact amounts |

## Where the code and its comments differ

The code is modelled as it is. In these places it does something else than its comments, its documentation or the
standard it cites say, and the exact condition is proved.

- `or_c` is marked `o` when both parts are `o` (`src/common/wallet.c:1121`); BIP 379 asks for `z` of the second part.
  `OneInput.MarkedRun` and `OneInput.OrCMarkIff` say exactly when the mark is right, and `OneInput.SwapRunIff` what a
  wrong one does to `s:`, the only rule that asks for it.
- The error of `s:` speaks of a Bu child; the code asks for `o` and not for `u` (`src/common/wallet.c:1666-1667`), as BIP 379 does.
- `and_n(X,Y)` is called andor(X,Y,1) in a comment (`src/common/wallet.c:991`); it is andor(X,Y,0), here and in BIP 379.
- `thresh` never gets `d` and `u` (`src/common/wallet.c:1346-1347`); BIP 379 gives it both.
  `ThreshExactness.ThreshFlagsExact` says that both always hold.
- The parser does not compare the threshold of `thresh` with the number of children;
  `StackSizeExact.ThreshExactIff` says what that means for the stack size, `StackSizeExact.UnreachableThreshold` for
  an example.
- The command list of the wrapper `a:` does not restore the alternative stack (`src/handler/lib/policy.c:238-240`), and
  `thresh` with a single script emits an ADD (`src/handler/lib/policy.c:701-704`);
  `PolicyEmitter.EmittedIsTranslationIff` says that these are the only differences from BIP 379,
  `EmittedRuns.NotTranslated` shows both, and `EmittedRuns.EmittedAltRuns` and `EmittedRuns.EmittedLoneRuns` say what
  the emitted script does instead.
- The processor of a node ignores that the stack of ten places has no place for a child
  (`src/handler/lib/policy.c:328-344` and `597-616`), where the one of `thresh` reports it (`695`); the parser has no
  limit on the depth of scripts. `PolicyMachine.EmitPolicy` says exactly which policies fit and who makes the first
  push that does not, `PolicyMachine.TooDeep` is an example.
- `MerkleTree.add` halves a size into a fraction (`bitcoin_client/ledger_bitcoin/merkle.py:179`);
  `PythonMerkle.MerkleTree.Add` gives the sizes for which that is never used, and `PythonMerkle.AddToSeven` one for
  which it is.
- `ceil_lg` doubles a 32-bit counter (`src/common/merkle.h:61-69`); `DeviceMerkle.CeilLgEndsIff` gives the sizes for
  which its loop ends.
- The Rust interpreter fails where the Python one answers that a leaf is not there, and cannot register an empty list;
  `ClientKnowledge.AnswersAlike` and `RustInterpreter.Interpreter.AddKnownList`.
- The comments on the client commands give the tree size and the leaf index four bytes (`src/handler/client_commands.h:17-26`);
  both sides write varints, `ClientKnowledge.RequestsSpelled`.
- `_get_expr` drops the last character when no delimiter follows (`bitcoin_client/ledger_bitcoin/descriptor.py:469-477`);
  `TaptreeParser.RoundTripIff` and `TaptreeParser.ReparseIff`.
- The 64-bit totals of `sign_psbt.c` wrap around; `SigningProperties.ConfirmedFeeIsHashed` says when that shows,
  and `SigningProperties.WrappedFee` is an example.

## Model

| member | source | states |
|---|---|---|
| `TypeSoundness.TypesAreSound` | src/common/wallet.c:659-1791 | Every run of the BIP 379 script of an expression that the parser accepts, if it does not abort, leaves the alternative stack and the open conditions as they were and the stack as the flags announce: B one value, V none, K one key, W one value beside the old top; z no input, n a non-empty top input for a true result, u a true result that is exactly 1, and exactly one input where the o flag, with the rule for or_c corrected, is set; for all expressions in which every s: is applied to an expression with that corrected o |
| `TypeSoundness.FragmentSound` | src/common/wallet.c:659-1791 | The same as a statement about all runs at once, which also says that the script does nothing inside a branch that is not taken |
| `TypeSoundness.CorrectedIff` | src/common/wallet.c:659-1791 | Correcting the o of or_c changes no flag but o, and leaves every s: with the o it asks for if and only if each s: is applied to an expression with the corrected o |
| `OneInput.MarkedRun` | src/common/wallet.c:659-1791 | What the o of the parser itself means: a run of an expression marked o, in which every s: has the corrected o, consumes at least one input, and exactly one if and only if it does not get past the failed first part of an or_c into the second |
| `OneInput.MarkHoldsIff` | src/common/wallet.c:659-1791 | The flags that the parser gives such an expression hold of all its runs if and only if no complete run gets past the failed first part of an or_c |
| `OneInput.OrCRunIff` | src/common/wallet.c:1075-1128 | A run of or_c(X,Z) with two marked parts consumes exactly one input if and only if X has left a true result |
| `OneInput.OrCMarkIff` | src/common/wallet.c:1121 | The mark that the parser gives or_c(X,Z) is right if and only if no run of Z completes, because X can always be made to fail first |
| `OneInput.SwapRunIff` | src/common/wallet.c:1665-1677 | A run of s:X keeps the old top below its result if and only if its run of X does not get past the failed first part of an or_c; otherwise it has consumed the old top |
| `OneInput.SwapOneInputFails` | src/common/wallet.c:1121 | s:t:or_c(pk(a),v:pk(b)) is accepted with type W, and a run of it consumes the old top |
| `OneInput.CanonicalSwapFails` | src/common/wallet.c:1121 | A canonical satisfaction of s:t:or_c(pk(a),v:pk(b)) aborts |
| `Dissatisfaction.DissatisfactionRuns` | src/common/wallet.c:659-1791 | What the flag d promises: an accepted expression of type B with d has a witness, without signatures and preimages, whose run leaves exactly the empty element |
| `Dissatisfaction.Dissatisfiable` | src/common/wallet.c:659-1791 | The same for B, K and W, on top of any stack, by induction over the expression |
| `TypeSoundness.FlagsExclusive` | src/common/wallet.c:659-1791 | The parser never gives an expression z together with o or n, nor z to a K, nor z, o or n to a W, nor d or u to a V, and it gives u to every K |
| `TypeSoundness.ThreshSound` | src/common/wallet.c:1236-1350 | The flags of thresh() hold of the script of its sum and comparison, for any number of children whose flags hold and exclude each other as FlagsExclusive says |
| `LeafExactness.LeafFlagsExact` | src/common/wallet.c:660-1602 | The flags of every fragment without parts are exact: z, o, n and u are set if and only if every complete run of its script keeps what the flag promises; the exceptions are n of 0, which no run can break, and u of older(1) and after(1), which leave exactly 1 |
| `LeafExactness.LeafDExact` | src/common/wallet.c:660-1602 | A fragment without parts has d if and only if some witness leaves the empty element (for a K, a signature that does not fit), and then a written-down one with empty elements instead of signatures and decoys instead of preimages does |
| `LeafExactness.TimelockAcceptsIff` | src/common/wallet.c:1482-1515 | older and after are accepted if and only if their number is a true element of at most four bytes |
| `LeafExactness.HashLockAcceptsIff` | src/common/wallet.c:733-784 | A hash lock is accepted if and only if in some environment whose digests have their fixed lengths it can be satisfied |
| `LeafExactness.MultiAcceptsIff` | src/common/wallet.c:1516-1602 | multi of at most 16 keys is accepted if and only if its script can complete and is not satisfied without any signature |
| `RuleExactness.BinaryFlagsExact` | src/common/wallet.c:849-1235 | For each of and_v, and_b, and_n, or_b, or_c, or_d, or_i, with the o of or_c as in BIP 379: z, o and u are set if and only if all scripts that keep the promises of the types of the parts keep the flag when they are combined; where it is left out, such scripts and a run that breaks it are given. For n the exact condition is BinaryNonEmpty, and the rule sets n exactly there except for and_n and for and_v with a K that has o and not n |
| `RuleExactness.AndOrFlagsExact` | src/common/wallet.c:785-848 | The same for andor, whose rule never sets n: n holds of all combinations if and only if X has z and both Y and Z promise a non-empty input |
| `RuleExactness.WrapFlagsExact` | src/common/wallet.c:1621-1791 | The same for the ten wrappers; the rule sets n exactly where it holds of all wrapped scripts, except for u:, where it always holds, and for c: on a K with o |
| `ThreshExactness.ThreshFlagsExact` | src/common/wallet.c:1336-1349 | The same for thresh() with any number of children: z and o are exact; n, which is never set, holds if and only if the threshold exceeds the number of children, or equals it and the first child has n; u and d, which are never set, always hold |
| `RuleAcceptance.BinaryDExact` | src/common/wallet.c:849-1235 | A two-part combinator has d if and only if all scripts that keep every promise of the types of the parts, d included, can be dissatisfied when they are combined; otherwise such scripts are given whose combination never completes |
| `RuleAcceptance.AndOrDExact` | src/common/wallet.c:785-848 | The same for andor |
| `RuleAcceptance.WrapDExact` | src/common/wallet.c:1621-1791 | The same for the wrappers |
| `RuleAcceptance.BinaryAcceptsIff` | src/common/wallet.c:849-1235 | A two-part combinator accepts two types if and only if all scripts of these types do what it needs of its parts: succeed as the base type it asks for on every witness on which they succeed at all, be dissatisfiable, and leave 1 when true, where NOTIF tests them; for a rejected type a script and a run are given that do not |
| `RuleAcceptance.AndOrAcceptsIff` | src/common/wallet.c:785-848 | The same for andor: X is good as a condition, and Y and Z are good for the same base type, which is not W |
| `RuleAcceptance.WrapAcceptsIff` | src/common/wallet.c:1621-1791 | The same for the wrappers, with the single input that s: needs, the missing input that d: needs and the non-empty input that j: needs |
| `RuleAcceptance.ThreshAcceptsIff` | src/common/wallet.c:1236-1335 | The same for thresh(), with the range of the threshold |
| `RuleAcceptance.ActsIff` | src/common/wallet.c:659-1791 | All scripts of a type succeed as some base type, wherever they succeed as their own, if and only if it is their own base type, or a B with z stands for a W |
| `RuleExactness.Part` | src/common/wallet.c:659-1791 | Every type has a script that keeps its promises and, where the type leaves them open, consumes one or two inputs, comes out true on an empty first element, or leaves 2 |
| `OneInput.OrCOneInputFails` | src/common/wallet.c:1121 | or_c(pk(a),v:pk(b)) is marked o, and a run of it consumes two inputs |
| `CombinatorSoundness.BinarySound` | src/common/wallet.c:849-1235 | Each of and_v, and_b, and_n, or_b, or_c, or_d, or_i keeps the promises of its computed type, for or_c with the o of BIP 379, if its parts keep theirs |
| `CombinatorSoundness.AndOrSound` | src/common/wallet.c:785-848 | andor keeps the promises of its computed type, if its three parts keep theirs |
| `CombinatorSoundness.WrapSound` | src/common/wallet.c:1621-1791 | Each of the ten wrappers keeps the promises of its computed type |
| `CombinatorSoundness.AddVerifyRun` | src/handler/lib/policy.c:500-513 | Merging VERIFY into the last opcode changes no run |
| `LeafSoundness.LeafSound` | src/common/wallet.c:660-1602 | Every fragment without parts keeps the promises of its type: 0, 1, the hash locks, the four key fragments, where a K leaves a key, older, after, and multi with its extra element |
| `LeafSoundness.MultiExec` | src/common/wallet.c:1516-1602 | What the script of multi() does on any stack: it pops k signatures and an empty element and pushes whether the signatures match keys in order |
| `CanonicalRuns.CanonicalWaysRun` | src/common/wallet.c:1996-2709 | Every canonical satisfaction of a typed expression of type B whose signatures, preimages and timelocks are valid runs its script to the end and leaves one true element; every canonical dissatisfaction leaves exactly the empty element |
| `CanonicalRuns.AllRun` | src/common/wallet.c:1996-2709 | The same for all types at once, by induction over the expression: B one good result, V nothing, K a key above its signature, W a result beside the old top |
| `CanonicalRuns.SigsPass` | src/common/wallet.c:1516-1602 | Signatures for any k of the keys in order pass the greedy matching of CHECKMULTISIG, whichever other keys they also fit |
| `CanonicalRuns.ThreshAll` | src/common/wallet.c:1236-1351 | Satisfying exactly k children satisfies thresh(), satisfying none dissatisfies it |
| `CanonicalRuns.BinaryAll` | src/common/wallet.c:849-1235 | The canonical (dis)satisfactions of the two-part combinators succeed if those of the parts do |
| `CanonicalRuns.WrapAll` | src/common/wallet.c:1621-1791 | The canonical (dis)satisfactions of a wrapped expression succeed if those of the expression do; for s: and d: this uses the number of inputs that the flags promise |
| `StackSizeExact.StackSizesExact` | src/common/wallet.c:1996-2709 | ss.sat and ss.dsat are the largest witness length over all canonical satisfactions and dissatisfactions, clamped at 32767, and -1 exactly when there are none; for every typed expression whose thresholds do not exceed the number of children |
| `StackSizeExact.ThreshExactIff` | src/common/wallet.c:2423-2481 | For thresh(), ss.dsat is always exact, and ss.sat is exact if and only if the threshold does not exceed the number of children |
| `StackSizeExact.UnreachableThreshold` | src/common/wallet.c:1236-1275 | thresh(2,pk(0)) is accepted, its satisfaction is reported to take no elements, and it has none |
| `StackSizeExact.ThreshTableExact` | src/common/wallet.c:1957-1994 | Entry j of the table is the largest witness length over all ways to satisfy exactly j children, for every subset of j children |
| `StackSizeExact.BinaryExact` | src/common/wallet.c:2186-2422 | The stack sizes of a two-part combinator are exact if those of its parts are |
| `StackSizeExact.WrapExact` | src/common/wallet.c:2483-2696 | The stack sizes of a wrapped expression are exact if those of the expression are |
| `StackSizeExact.AndOrExact` | src/common/wallet.c:2145-2185 | The stack sizes of andor are exact if those of its parts are |
| `StackSizeExact.LeafExact` | src/common/wallet.c:2010-2144 | The stack sizes of every fragment without parts are exact |
| `MiniscriptAnalysis.ComputeThreshStackSize` | src/common/wallet.c:1957-1994 | The two arrays of the dynamic program, the second copied over the first after every child and both read back as signed 16-bit numbers, give the table of the recursive definition; more than 128 children fail |
| `MiniscriptAnalysis.Round` | src/common/wallet.c:1979-1986 | One round of the program takes the table of the children so far to the table with one child more, in place |
| `SignatureFlags.SignatureFlagSound` | src/common/wallet.c:1996-2709 | If s is set, every canonical satisfaction contains a signature |
| `SignatureFlags.KeyTypeSigned` | src/common/wallet.c:2538-2567 | Every canonical satisfaction of an expression of type K contains a signature, which is why c: may set s unconditionally |
| `SignatureFlags.ThreshSigned` | src/common/wallet.c:2423-2481 | If more children are satisfied than there are children without s, one of the satisfied ones has a signature |
| `UnsignedRuns.UnsignedRun` | src/common/wallet.c:1996-2709 | The converse for s: an accepted expression of type B without s has a witness, built from preimages and met timelocks, on which its script runs to the end and leaves one true element although no signature check passes |
| `UnsignedRuns.Unsigned` | src/common/wallet.c:1996-2709 | The same for all base types, on top of any stack, by induction over the expression |
| `UnsignedRuns.ThreshOutcome` | src/common/wallet.c:1236-1351 | On witnesses with given outcomes of its children thresh() is satisfied if and only if exactly k of them are, and otherwise leaves the empty element |
| `TimelockFlags.TimelockFlagsSound` | src/common/wallet.c:1996-2709 | If k is set, no canonical satisfaction relies on both height and time locks of the same kind; every lock that a satisfaction relies on is announced by the flags g, h, i, j |
| `TimelockFlags.ThreshGood` | src/common/wallet.c:2423-2481 | The same for thresh() with a threshold above one, where any two children may be satisfied together |
| `TimelocksExact.FlagsName` | src/common/wallet.c:2084-2120 | Each of g, h, i and j is set if and only if a timelock of that kind, relative or absolute and time or height, occurs in the expression |
| `TimelocksExact.KExact` | src/common/wallet.c:2006-2696 | k is missing if and only if somewhere in the expression a time lock and a height lock, both relative or both absolute, stand in two parts of a conjunction or in a thresh() that asks for more than one child |
| `ScriptSize.SizeAnalysisExact` | src/common/wallet.c:2009-2696 | script_size is the byte length of the BIP 379 script and ops.count the number of its opcodes other than pushes, both modulo 65536; x is false exactly when the last opcode absorbs VERIFY |
| `ScriptSize.CompileWellFormed` | src/common/wallet.c:659-1791 | The script of an accepted expression consists of opcodes that can be serialized: small numbers up to 16 and direct pushes of 1 to 75 bytes |
| `ScriptSize.CompileMeasured` | src/common/wallet.c:2009-2696 | The inductive form of the same, in which every part of an expression is measured |
| `ScriptSize.PushSizeExact` | src/common/script.c:15-28 | The computed size of a number push is the length of its serialization |
| `ScriptSize.SerializeUnique` | src/common/script.h:5-143 | The bytes of a script whose opcodes can be serialized determine the script |
| `ScriptBytes.TranslationExact` | src/common/script.h:5-143 | The serialized script of every accepted expression is the translation table of BIP 379 written down in bytes, with VERIFY merged into the last byte where that is EQUAL, CHECKSIG or CHECKMULTISIG |
| `ScriptSize.ThreshMeasured` | src/common/wallet.c:2423-2481 | Size and opcode count of thresh() are those of its script, for any number of children, although they are summed up in 16 bits |
| `ScriptSize.WrapMeasured` | src/common/wallet.c:2483-2696 | Size, opcode count and x of a wrapped expression are those of its script; v: adds an opcode exactly when x is set |
| `ScriptSize.BinaryMeasured` | src/common/wallet.c:2186-2422 | Size, opcode count and x of a two-part combinator are those of its script |
| `PolicyEmitter.EmittedIsTranslationIff` | src/handler/lib/policy.c:132-286 | For every policy that the parser accepts, the script that the command lists describe is the translation of BIP 379 if and only if the policy has neither a wrapper a: nor a thresh() with a single script |
| `PolicyEmitter.EmissionExact` | src/handler/lib/policy.c:500-709 | For every accepted policy the emitter writes one recursively defined script, and under the VERIFY flag that script with VERIFY merged into its last opcode |
| `PolicyEmitter.Counts` | src/handler/lib/policy.c:238-240 | How the emitted script and the translation differ in number: one FROMALTSTACK less for every a:, one ADD more for every thresh() with a single script |
| `EmittedRuns.EmittedAltAborts` | src/handler/lib/policy.c:238-240 | On every canonical satisfaction and dissatisfaction of and_b(X,a:Y) and or_b(X,a:Y), with parts that are emitted as translated, the translation of BIP 379 leaves one element with the right truth value, and the emitted script aborts |
| `EmittedRuns.EmittedAltRuns` | src/handler/lib/policy.c:238-240 | The same on top of any other elements: the result of X stays on the alternative stack, and the operator combines the result of Y with the element below |
| `EmittedRuns.EmittedLoneAborts` | src/handler/lib/policy.c:699-709 | On every canonical satisfaction and dissatisfaction of thresh(k,X) the translation leaves one element with the right truth value, and the emitted script aborts |
| `EmittedRuns.EmittedLoneRuns` | src/handler/lib/policy.c:699-709 | The same on top of any other elements: the element below is added to the result of X before the comparison with k |
| `EmittedRuns.NothingComesBack` | src/handler/lib/policy.c:132-286 | Whatever policy a script was emitted for, and from whatever state it runs, nothing that was on the alternative stack ever comes back from it |
| `EmittedRuns.NotTranslated` | src/handler/lib/policy.c:238-240 | and_b(pk(0),a:pk(1)) and thresh(1,pk(0)) are accepted and not emitted as they are translated |
| `PolicyEmitter.ThreshEmitted` | src/handler/lib/policy.c:669-709 | The steps of the thresh() processor write the sum in the order of the translation, although ADD is emitted before a child instead of behind it |
| `PolicyMachine.EmitPolicy` | src/handler/lib/policy.c:1060-1243 | For every policy the loop over the explicit stack ends; it emits all of what the recursive description says if and only if the policy has at most ten levels, and otherwise stops at the first push for which the stack has no place, which it attributes to a thresh() or to another node |
| `PolicyMachine.PlacesSufficeIff` | src/handler/lib/policy.c:328-344 | The first push without a place, in the order in which nodes are processed, exists if and only if the policy is deeper than there are places |
| `PolicyMachine.TooDeep` | src/handler/lib/policy.c:328-344 | Ten n: around pk(0) are accepted, have eleven levels, and make a push without a place that is not by a thresh() |
| `PolicyMachine.GenericRound` | src/handler/lib/policy.c:515-624 | One step of a node: what is emitted, what the stack still has to emit and the first push without a place stay the same, and the remaining work shrinks; or this step is that push |
| `PolicyMachine.ThreshRound` | src/handler/lib/policy.c:669-709 | The same for a step of the thresh() processor |
| `PolicyMachine.PushChild` | src/handler/lib/policy.c:328-344 | Pushing a child leaves the total to be emitted unchanged if there is a place, and otherwise is the first push without one |
| `PolicyMachine.PushU32` | src/handler/lib/policy.c:468-498 | The bytes written for a 32-bit number are the serialization of its minimal push |
| `PolicyParser.ParseDescriptorTemplate` | src/common/wallet.c:1865-1877 | Parsing succeeds exactly when the policy respects the limits, among them 1 to 32767 for the k of thresh, and fits the buffer; then the root node is at the very start of the buffer, all nodes are 4-aligned, inside the buffer and disjoint, and walking along the pointers gives back the policy |
| `PolicyParser.Arena.ParseScript` | src/common/wallet.c:520-601 | A script, with the nodes of all its wrappers first, is stored from the aligned output cursor on; everything stored before stays; failure exactly when a limit is exceeded or the buffer is too small |
| `PolicyParser.Arena.ParseCore` | src/common/wallet.c:659-1609 | The same for the script inside the wrappers, for every kind of node |
| `PolicyParser.Arena.ParseChildScripts` | src/common/wallet.c:486-511 | Each child is stored where the pointer set before its parsing leads, and the earlier children stay in place while the node is patched |
| `PolicyParser.Arena.ParseNested` | src/common/wallet.c:785-1235 | A node with a fixed number of scripts and all of its scripts are stored, the node first |
| `PolicyParser.Arena.ParseThresh` | src/common/wallet.c:1236-1351 | thresh() is stored as its node and a linked list whose cells point to the children; a k outside of 1 to 32767 fails |
| `PolicyParser.Arena.ParseList` | src/common/wallet.c:1276-1335 | The loop keeps finished cells and children in place while it links one cell more |
| `PolicyParser.Arena.ParseListed` | src/common/wallet.c:1278-1284 | One child of the list is stored where the pointer of its cell leads |
| `PolicyParser.Arena.ParseMulti` | src/common/wallet.c:1516-1602 | The keys of a multisig are stored as a contiguous array behind its node; the threshold and the number of keys are within their limits |
| `PolicyParser.Arena.ParseKeys` | src/common/wallet.c:1556-1583 | How many keys could be allocated, and that they lie at array distance without padding |
| `PolicyParser.Arena.ParseSingle` | src/common/wallet.c:1352-1385 | A key is stored behind its node, which points to it |
| `PolicyParser.Arena.ParseTr` | src/common/wallet.c:1434-1485 | tr() is stored as its node, its key and its tree, if it has one |
| `PolicyParser.Arena.ParseTree` | src/common/wallet.c:1798-1863 | A taptree up to depth 4 is stored with the relative pointers of its leaves and branches; deeper ones fail |
| `PolicyParser.Arena.Alloc` | src/common/buffer.c:240-257 | An aligned allocation fails exactly when padding and structure do not fit; otherwise it keeps all earlier nodes, and all nodes stay aligned, in bounds and disjoint |
| `PolicyParser.Arena.AlignCursor` | src/common/buffer.c:240-257 | An allocation of nothing aligns the cursor if there is room, and otherwise leaves it |
| `PolicyParser.Arena.constructor` | src/common/wallet.c:1874 | The empty buffer is well laid out |
| `PolicyArena.RelativeIff` | src/common/wallet.h:331-346 | A 16-bit relative pointer resolves to the node it was set to if and only if the node lies ahead, less than 65536 bytes away |
| `PolicyArena.StoredKept` | src/common/wallet.c:486-511 | A stored script depends on nothing outside its own range of the buffer |
| `PolicyReader.ReadsStored` | src/common/wallet.h:331-340 | The walk along the pointers, which stops at any pointer that does not lead strictly forward inside the buffer, gives back exactly the stored script |
| `SignPsbt.HandleSignPsbt` | src/handler/sign_psbt.c:2465-2531 | Whatever client and user do, a run that yields a signature has answered exactly the dialogue of a checked transaction before the first signature, every signature is for a right message about an own input, and the hashed streams are the outpoints, sequence numbers, amounts, scripts and outputs of that transaction. With an honest client and a willing user the run succeeds if and only if the request is acceptable, its global map included, the outpoints are complete and every own input has a program, redeem script and witness script that fit; it then signs every own input once per own key |
| `SigningProperties.ConfirmedFeeIsHashed` | src/handler/sign_psbt.c:1315-1331 | The confirmed fee is the difference of the sums of the amounts streamed into sha_amounts and sha_outputs if and only if both sums wrap around 2^64 equally often |
| `SigningProperties.WrappedFee` | src/handler/sign_psbt.c:1315-1331 | Two inputs of 2^63 satoshis and no output pass every check with a fee of 0 |
| `SigningProperties.FeeWithoutWrap` | src/handler/sign_psbt.c:1315-1331 | With sums below 2^64 the 64-bit difference is the true one |
| `SigningProperties.OutputsApproved` | src/handler/sign_psbt.c:1157-1309 | In a run that yields a signature every output is change of the wallet or was accepted by the user with its own text and amount |
| `SigningProperties.SwapPaysAsRequested` | src/handler/sign_psbt.c:1333-1352 | For a swap there is exactly one output that is not change, it pays the requested amount to the requested address, the fee is the requested one and all inputs are the wallet's |
| `SigningProperties.WarningsAccepted` | src/handler/sign_psbt.c:1070-1120 | Every yielded signature is for an input of the wallet and comes after the user accepted each warning that the inputs call for, and the fee |
| `SigningInBytes.AcceptedExactly` | src/handler/sign_psbt.c:836-1360 | In a run that yields a signature the answers are exactly these: the authorisation unless the policy is canonical, each of the three warnings if and only if some input calls for it in its bytes, and, unless it is a swap, every output that is not change with its own number, text and amount, and the fee |
| `SigningInBytes.AcceptedInOrder` | src/handler/sign_psbt.c:499-1360 | The answers come in the order authorisation, warnings, outputs by increasing number, fee, and none twice; with AcceptedExactly this determines them |
| `SigningInBytes.WitnessUtxoIff` | src/handler/sign_psbt.c:315-353 | A witness utxo field is read as an amount and script if and only if it is the eight little-endian bytes of the amount, the length of the script and the script |
| `SigningInBytes.PrevoutIff` | src/handler/sign_psbt.c:908-981 | What is checked about the output that an input spends, in the bytes of its map: which of the two fields are there, that they agree, and the txid |
| `SigningInBytes.InternalIff` | src/handler/sign_psbt.c:998-1064 | What is checked about an own input, in bytes: the fields it must have, and the sighash types 0, 1, 2, 3 and 0x81 to 0x83, by the script |
| `SigningInBytes.OutputIff` | src/handler/sign_psbt.c:1157-1200 | An output is read as an amount and script if and only if the fields 0x03 and 0x04 of its map are its eight bytes and the script of at most 83 bytes |
| `SigningInBytes.SpentIsCommitted` | src/handler/sign_psbt.c:836-1064 | Every amount and script that is checked as spent is the one in the bytes of the committed map |
| `SigningInBytes.CreatedIsCommitted` | src/handler/sign_psbt.c:1157-1309 | Every amount and script that is checked as created is the one in the bytes of the committed map |
| `SigningInBytes.KindInBytes` | src/handler/sign_psbt.c:2180-2329 | Which algorithm a message is for, from the key types of the map and the first byte of the program |
| `SigningInBytes.TypeInBytes` | src/handler/sign_psbt.c:2180-2329 | The sighash type of a message is the first of the four bytes of field 0x03, with zeros behind it, or the default of its kind; it is one of the seven known types, and SINGLE has an output |
| `SigningInBytes.CoverageInBytes` | src/handler/sign_psbt.c:1525-1808 | Which parts of the transaction a message covers, for every kind and sighash type: outputs, outpoints, sequence numbers, amounts, scripts and its own input |
| `SigningInBytes.ScriptInBytes` | src/handler/sign_psbt.c:1395-1600 | The script code of a message is the redeem script, the spent script, the key hash script in bytes, or the witness script whose SHA-256 is the program |
| `SigningInBytes.NumbersInBytes` | src/handler/sign_psbt.c:548-589 | The version of a message is field 0x02 of the global map, its lock time field 0x03 or zero, and every sequence number field 0x10 of its input or the final one, each with four bytes |
| `SigningInBytes.OutpointInBytes` | src/handler/sign_psbt.c:1525-1556 | The outpoint of an input is its fields 0x0e and 0x0f |
| `RequestInBytes.AcceptableIff` | src/handler/sign_psbt.c:522-1360 | The requests that an honest client and a willing user get through, in bytes: the wallet check, the global map with its four-byte version and lock time, every input, every output, the warnings that a swap allows, and the sums |
| `RequestInBytes.AllSignableIff` | src/handler/sign_psbt.c:2180-2329 | All own inputs are signable if and only if each of them is, in bytes: sighash type, redeem script, version and length of the program, witness script |
| `RequestInBytes.InputIff` | src/handler/sign_psbt.c:836-1064 | An input is acceptable if and only if the bytes of its map are |
| `RequestInBytes.OutputAcceptableIff` | src/handler/sign_psbt.c:1157-1309 | An output is acceptable if and only if the bytes of its map are, and for a swap its address is the requested one |
| `RequestInBytes.SumsIff` | src/handler/sign_psbt.c:1315-1352 | The sums are acceptable if and only if the 64-bit totals of the spent and created amounts and the fee are, in terms of the amounts themselves |
| `SigningProperties.TaprootSignsConfirmedFee` | src/handler/sign_psbt.c:1674-1808 | A taproot signature of type DEFAULT or ALL commits to the amounts and outputs whose difference is the fee that the user confirmed |
| `SignPsbt.PaidExactly` | src/handler/sign_psbt.c:1347-1352 | With a single output that is not change, the difference of the two 64-bit totals is its amount even if the totals wrap around |
| `SignPsbt.Session.PreprocessInputs` | src/handler/sign_psbt.c:868-1068 | The totals and flags after the loop are those of the spent outputs, each input counted once whichever utxo fields it has; with an honest client the loop succeeds if and only if every input is acceptable |
| `SignPsbt.Session.PreprocessInput` | src/handler/sign_psbt.c:883-1064 | One input is cross-checked, counted once, and classified; both directions for an honest client |
| `SignPsbt.Client.ReadPrevout` | src/handler/sign_psbt.c:908-981 | An amount and script are returned only if all utxo fields of the input agree and the previous transaction has the txid that is spent; an honest client is refused only if no amount and script could pass |
| `SignPsbt.Client.CheckInternal` | src/handler/sign_psbt.c:998-1064 | Which utxo fields an own input must have and which sighash types are allowed or call for a warning |
| `SignPsbt.Client.GetNonWitness` | src/handler/sign_psbt.c:261-313 | The previous transaction gives the spent output only if its txid is the expected one |
| `SignPsbt.Client.GetWitness` | src/handler/sign_psbt.c:315-353 | The witness utxo field gives its amount and script or nothing |
| `SignPsbt.Client.GetEither` | src/handler/sign_psbt.c:355-378 | When the fields of an input agree, it does not matter which of them the client gives |
| `SignPsbt.Session.ShowAlerts` | src/handler/sign_psbt.c:1070-1120 | Exactly the warnings that the inputs call for are shown, in order, and all must be accepted; no own input at all, or a foreign input in a swap, is refused |
| `SignPsbt.Session.DisplayOutput` | src/handler/sign_psbt.c:1157-1210 | An output passes only if it can be shown and was accepted, or, in a swap, if it pays to the requested address |
| `SignPsbt.Session.ProcessOutput` | src/handler/sign_psbt.c:1229-1305 | One output is classified, added to the totals, and shown unless it is change |
| `SignPsbt.Session.ProcessOutputs` | src/handler/sign_psbt.c:1213-1309 | The totals and counters after the loop are those of the created outputs, and the screens are those of the outputs that are not change, numbered from 1 |
| `SignPsbt.Session.ConfirmTransaction` | src/handler/sign_psbt.c:1311-1362 | The confirmation passes if and only if the totals leave a fee, there are at most ten change outputs and a swap gets what it asked for; the fee shown is the difference of the totals |
| `SignPsbt.Session.ReadGlobals` | src/handler/sign_psbt.c:548-589 | Version and lock time are those of the committed global map; an honest client gets through if and only if its keys are in order, the version has four bytes and the lock time, if there is one, has four |
| `SignPsbt.Session.InitGlobalState` | src/handler/sign_psbt.c:498-724 | Success means that the global map was read, the wallet policy is acceptable and a registered one was authorised by the user first; with an honest client and a willing user both directions |
| `SignPsbt.Session.Approve` | src/handler/sign_psbt.c:2479-2516 | Everything before signing: on success the global map was read, the transaction is checked and the answers are exactly its dialogue; for an honest client and a willing user success means that the request, with its global map, is acceptable |
| `SignPsbt.Session.HashOutput` | src/handler/sign_psbt.c:182-227 | The bytes streamed for an output are those of the committed output, or the hash fails |
| `SignPsbt.Session.HashOutputs` | src/handler/sign_psbt.c:231-238 | All outputs are streamed, in order |
| `SignPsbt.Session.HashAmounts` | src/handler/sign_psbt.c:2095-2139 | The streamed amounts and scripts are those of the checked outputs that are spent, although the client may give other fields of the same inputs the second time |
| `SignPsbt.Session.HashPrevouts` | src/handler/sign_psbt.c:2019-2080 | All outpoints are streamed, in order, and a right sequence number for each of them |
| `SignPsbt.Session.ComputeSegwitHashes` | src/handler/sign_psbt.c:2017-2142 | The five streams are the outpoints, sequence numbers, amounts, scripts and outputs of the checked transaction |
| `SignPsbt.Session.ReadLegacyCode` | src/handler/sign_psbt.c:1426-1450 | The script code of a legacy input is its redeem script, if it has one, or the script that is spent; an honest client is refused only without a redeem script that can be read |
| `SignPsbt.Session.LegacyMessage` | src/handler/sign_psbt.c:1364-1487 | A legacy message covers version, lock time, all outpoints, sequence numbers and outputs of the checked transaction and the script code of its input; an honest client gets one if and only if that can be read |
| `SignPsbt.Session.HashCovered` | src/handler/sign_psbt.c:1639-1656 | The outputs in a message are all of them, the one with the index of the input, or none, as the sighash type says |
| `SignPsbt.Session.ReadOwn` | src/handler/sign_psbt.c:1528-1636 | Outpoint, amount and sequence number of the input itself are those of the committed map |
| `SignPsbt.Session.ReadV0Code` | src/handler/sign_psbt.c:1557-1600 | The script code of a version 0 program is that of its key hash, or the witness script that hashes to it; every other program, and a witness script that does not fit, fails |
| `SignPsbt.Session.SegwitV0Message` | src/handler/sign_psbt.c:1489-1672 | A version 0 message has the parts that its sighash type asks for and no others: outpoints unless ANYONECANPAY, sequence numbers for ALL without it, the outputs of the type, its own outpoint, amount, sequence number and script code |
| `SignPsbt.Session.SegwitV1Message` | src/handler/sign_psbt.c:1674-1808 | A version 1 message has the parts that its sighash type asks for and no others: all outpoints, amounts, scripts and sequence numbers, or its own with ANYONECANPAY, and the outputs of the type |
| `SignPsbt.Session.ReadProgram` | src/handler/sign_psbt.c:2201-2252 | The witness program of an input is its script or, behind a redeem script that hashes to the script, that redeem script |
| `SignPsbt.Session.SegwitMessage` | src/handler/sign_psbt.c:2199-2329 | The message for an own input with a witness utxo is right; an honest client gets one if and only if its program is of version 0 or 1, and for version 0 has a script code, and fits its redeem script |
| `SignPsbt.Session.MessageFor` | src/handler/sign_psbt.c:2144-2329 | The message for an own input is right whichever way it is spent; an honest client gets one if and only if the input is signable: its sighash type, redeem script, program and script code fit |
| `SignPsbt.Session.SignInput` | src/handler/sign_psbt.c:2144-2329 | At most one signature is yielded for an input, and it is for a right message |
| `SignPsbt.Session.SignPass` | src/handler/sign_psbt.c:2426-2456 | A pass that succeeds signs exactly the own inputs, in order |
| `SignPsbt.Session.SignPasses` | src/handler/sign_psbt.c:2398-2460 | There is one pass for every key of the device, with an honest client for each of them |
| `SignPsbt.Session.SignTransaction` | src/handler/sign_psbt.c:2383-2463 | Nothing is signed before the transaction-wide hashes of the checked transaction are there |
| `Psbt.TotalWraps` | src/handler/sign_psbt.c:943-975 | The 64-bit total is the true total modulo 2^64 |
| `Merkle.PathFolds` | bitcoin_client/ledger_bitcoin/merkle.py:235-247 | Folding the audit path of a leaf along the directions of its index gives the root, and there are as many directions as hashes (section 2.1.1 of RFC 6962) |
| `Merkle.FullProofSound` | src/common/merkle.c:76-106 | If no two of the pairs that are combined, in the tree and along the proof, collide, whatever full-length proof folds to the root carries exactly the leaf at that index |
| `Merkle.ProofSound` | src/common/merkle.c:76-106 | Under the same condition a shorter proof that folds to the root along the first directions carries the inner node at that depth |
| `Merkle.PowerOfTwoTest` | bitcoin_client/ledger_bitcoin/merkle.py:34-39 | The bit trick holds exactly of powers of two |
| `RustMerkle.NewRoot` | bitcoin_client_rs/src/merkle.rs:72-94 | The value of the immutable tree is the root of its list |
| `RustMerkle.GetProofIsPath` | bitcoin_client_rs/src/merkle.rs:111-127 | The proof that is read off the tree by comparing with heights is the audit path |
| `RustMerkle.FloorLg` | bitcoin_client_rs/src/merkle.rs:131-141 | The exponent of the largest power of two that is not above n |
| `RustMerkle.PowerOf2` | bitcoin_client_rs/src/merkle.rs:143-149 | The power of two |
| `RustMerkle.LargestPowerOf2LessThan` | bitcoin_client_rs/src/merkle.rs:158-168 | The largest power of two strictly below n, at which lists are split |
| `DeviceMerkle.ComputeCeilLg` | src/common/merkle.h:61-69 | The least exponent whose power of two is not below n |
| `DeviceMerkle.CeilLgEndsIff` | src/common/merkle.h:61-69 | The loop of ceil_lg, with its 32-bit counter, ends if and only if the size is at most 2^31 |
| `DeviceMerkle.GetIthDirection` | src/common/merkle.c:76-106 | The loop computes the i-th direction of the recursive description, and -1 past the last one or for an index out of range |
| `DeviceMerkle.GetMerkleLeafHash` | src/handler/lib/get_merkle_leaf_hash.c:15-127 | The device accepts an answer exactly when its proof, received in pieces, folds to the root along the directions |
| `DeviceMerkle.AcceptedIsCommitted` | src/handler/lib/get_merkle_leaf_hash.c:15-127 | If no two of the pairs combined in the tree and in the check collide, what is accepted for a committed list is the node on the way to the leaf at the depth of the proof, and the leaf itself for a proof of full length |
| `DeviceMerkle.AuditPathAccepted` | src/handler/lib/get_merkle_leaf_hash.c:15-127 | The audit path is accepted, however it is cut into messages |
| `PythonMerkle.MerkleTree.constructor` | bitcoin_client/ledger_bitcoin/merkle.py:130-138 | A tree built from a list is linked both ways, splits at powers of two, and every inner node combines its children |
| `PythonMerkle.MerkleTree.SetExisting` | bitcoin_client/ledger_bitcoin/merkle.py:195-215 | Replacing a leaf updates only values, and leaves the same tree as one built from the updated list |
| `PythonMerkle.MerkleTree.Set` | bitcoin_client/ledger_bitcoin/merkle.py:195-215 | Setting an existing or the next leaf, with the exact outcome for every index, length and size |
| `PythonMerkle.MerkleTree.Add` | bitcoin_client/ledger_bitcoin/merkle.py:153-193 | Adding a leaf succeeds if and only if the old size has at most two one-bits, and then leaves the tree of the longer list; otherwise the halved size is no integer at the second descent, after the leaf was appended |
| `PythonMerkle.AddToSeven` | bitcoin_client/ledger_bitcoin/merkle.py:166-179 | An eighth leaf cannot be added to any tree of seven |
| `PythonMerkle.MerkleTree.RootHash` | bitcoin_client/ledger_bitcoin/merkle.py:145-147 | The root of the current list, or 32 zero bytes for the empty one |
| `PythonMerkle.MerkleTree.ProveLeaf` | bitcoin_client/ledger_bitcoin/merkle.py:235-247 | The siblings on the way up are the audit path of the current list |
| `PythonMerkle.MerkleTree.LeafIndex` | bitcoin_client/ledger_bitcoin/merkle.py:226-233 | The first index of a leaf, if there is one |
| `PythonMerkle.MakeTree` | bitcoin_client/ledger_bitcoin/merkle.py:92-110 | The recursive construction on shared leaf objects gives a linked, left-complete tree with all values combined |
| `PythonMerkle.FixUp` | bitcoin_client/ledger_bitcoin/merkle.py:217-220 | Recomputing the values from a node upwards restores every inner node, if only the nodes on the way were wrong |
| `PythonMerkle.InsertRight` | bitcoin_client/ledger_bitcoin/merkle.py:181-193 | Putting a new inner node above the right child relinks exactly the nodes around it |
| `PythonMerkle.Descend` | bitcoin_client/ledger_bitcoin/merkle.py:166-179 | How many times the descent turns right before it needs the fractional size, by the number of one-bits |
| `PythonMerkle.TopIsRoot` | bitcoin_client/ledger_bitcoin/merkle.py:68-90 | In a left-complete tree whose inner nodes combine their children, the top value is the root of the list |
| `PythonMerkle.SiblingsArePath` | bitcoin_client/ledger_bitcoin/merkle.py:80-90 | In such a tree the siblings of a leaf upwards are its audit path |
| `Streaming.PreimageReassembled` | bitcoin_client/ledger_bitcoin/client_command.py:49-83 | The first answer and all further answers to GET_MORE_ELEMENTS give back exactly the preimage |
| `Streaming.ProofReassembled` | bitcoin_client/ledger_bitcoin/client_command.py:98-136 | The first answer and all further answers give back exactly the leaf and its proof, every answer within 255 bytes |
| `Streaming.DrainComplete` | bitcoin_client/ledger_bitcoin/client_command.py:175-203 | Draining a queue of uniform elements returns all of them in order, in at most as many answers as elements, each within 255 bytes |
| `Streaming.PreimageAnswer` | bitcoin_client/ledger_bitcoin/client_command.py:49-83 | The answer fits 255 bytes and the queue holds single bytes |
| `ClientSessions.PreimageSession` | bitcoin_client/ledger_bitcoin/client_command.py:49-83 | A whole session of the device for a preimage, GET_PREIMAGE followed by as many GET_MORE_ELEMENTS as the answers call for: every answer has at most 255 bytes, the preimage is put together exactly, and queue and yielded values are as before |
| `ClientSessions.ProofSession` | bitcoin_client/ledger_bitcoin/client_command.py:98-203 | A whole session for a Merkle proof: what the device puts together is the leaf and its path, the device accepts it for the root, size and index it asked for, and the queue is empty again |
| `ClientSessions.LookupSession` | src/handler/lib/get_merkleized_map_value.c:8-32 | A whole session for the value of a key of a committed map, five exchanges with all their continuations: the answers contain the index of the key, accepted proofs of key and value, and the value |
| `ClientSessions.MappingSession` | bitcoin_client/ledger_bitcoin/client_command.py:316-334 | The same after any registrations that include the map, and the Rust client gives the same run, answer by answer |
| `ClientSessions.DrainRun` | bitcoin_client/ledger_bitcoin/client_command.py:175-203 | Requests for more elements, as many as needed, return the queue in order and leave it empty |
| `ClientSessions.SameRun` | bitcoin_client_rs/src/interpreter.rs:95-274 | Over every sequence of requests without one that is not found, the two clients give the same run |
| `ClientSessions.YieldedExactly` | bitcoin_client/ledger_bitcoin/client_command.py:27-46 | Over every sequence of requests both clients have yielded exactly the data of the YIELD requests, in order |
| `ClientSessions.RunJoin` | bitcoin_client/ledger_bitcoin/client_command.py:248-275 | A run of two sequences of requests is the run of the first, followed by the run of the second from the queue and the yielded values that the first left |
| `Streaming.VarintRoundTrip` | src/common/varint.c:25-101 | Reading a written number gives it back and leaves what follows |
| `Streaming.VarintShortest` | src/common/varint.c:25-101 | Of all spellings of a number that are read as it, the one that is written is the shortest, and the only one of its length |
| `HashedLists.RootUnique` | bitcoin_client/ledger_bitcoin/merkle.py:53-66 | If no two of the strings hashed for two lists collide, lists with the same root are the same list |
| `HashedLists.CommitmentUnique` | bitcoin_client/ledger_bitcoin/merkle.py:250-260 | If no two of the strings hashed for two maps collide, maps with the same commitment are the same map |
| `HashedLists.PairsApart` | bitcoin_client/ledger_bitcoin/merkle.py:59-63 | If no two of the strings hashed for some pairs of hashes collide, no two of the pairs do, as the soundness of proofs asks for |
| `HashedLists.ToyFree` | bitcoin_client/ledger_bitcoin/merkle.py:53-66 | These conditions can be met: a hash of 32 bytes, and all lists of two different short elements, for which no strings collide |
| `HashedLists.CommitmentReadBack` | bitcoin_client/ledger_bitcoin/merkle.py:250-260 | A commitment is read back as the number of entries and the two roots that lookups are made on |
| `ClientInterpreter.GetMerkleizedMapCommitment` | bitcoin_client/ledger_bitcoin/merkle.py:250-260 | The commitment that is computed is the one of the keys in order, and no other order is possible |
| `HashedLists.SortedUnique` | bitcoin_client/ledger_bitcoin/merkle.py:250-260 | A set of keys has only one sorted list |
| `ClientProtocol.CommittedLookup` | bitcoin_client/ledger_bitcoin/client_command.py:98-164 | For every key of a known mapping whose hashed keys do not collide, the three requests leaf index, leaf proof and preimage yield exactly the index of the key, a proof that the device accepts for the hash of its value, and the value |
| `ClientProtocol.KeyFound` | bitcoin_client/ledger_bitcoin/client_command.py:147-164 | The leaf index of a key on the root of the keys is its place in their order, if no two of the strings hashed for the keys collide |
| `ClientProtocol.ValueProved` | bitcoin_client/ledger_bitcoin/client_command.py:98-136 | The leaf proof on the root of the values is accepted by the device and carries the hash of the value |
| `ClientProtocol.PreimageFound` | bitcoin_client/ledger_bitcoin/client_command.py:49-83 | The preimage request for that hash is answered with the value |
| `ClientProtocol.ProofRequestRead` | bitcoin_client/ledger_bitcoin/client_command.py:98-112 | A proof request for any root, size and index is read by both clients as that root, size and index |
| `ClientKnowledge.AnswersAlike` | bitcoin_client_rs/src/interpreter.rs:95-274 | After the same registrations, and over every sequence of requests of the device, the dictionaries of the Python client and the vectors of the Rust client give the same queue, the same yielded values and the same answers, except exactly where the index of a hash is asked for that is no leaf of a known tree: there Python says so and Rust fails; if no two of the strings hashed for the registered elements and lists collide |
| `ClientKnowledge.KnowAlike` | bitcoin_client_rs/src/interpreter.rs:43-93 | After the same registrations the last entry of a dictionary and the first match in a vector are the same, for every preimage and tree that may be asked for |
| `ClientKnowledge.RegisteredIsKnown` | bitcoin_client/ledger_bitcoin/client_command.py:291-314 | A registered list, whatever was registered before and after it, is known to both clients as it is |
| `ClientKnowledge.MappingLookup` | bitcoin_client/ledger_bitcoin/client_command.py:316-334 | After a mapping was registered, whatever else was, both clients answer the three requests for each of its keys so that the device gets its value |
| `ClientKnowledge.RequestsSpelled` | src/handler/client_commands.h:10-35 | The five requests of the device in bytes |
| `ClientKnowledge.ToyFacts` | bitcoin_client/ledger_bitcoin/client_command.py:291-314 | The condition on the hash can be met, for a client in which a list was registered |
| `ClientInterpreter.Interpreter.Execute` | bitcoin_client/ledger_bitcoin/client_command.py:248-275 | Every request is answered, and the queue and the yielded list are changed, as the protocol describes for what was registered |
| `ClientInterpreter.Interpreter.AddKnownMapping` | bitcoin_client/ledger_bitcoin/client_command.py:316-334 | Registering a mapping registers its keys in strictly increasing order and its values in the same order, and nothing else |
| `ClientInterpreter.Interpreter.AddKnownList` | bitcoin_client/ledger_bitcoin/client_command.py:291-314 | Registering a list stores its tree and the preimages of its leaves, so that the dictionaries are those of all registrations so far |
| `ClientInterpreter.Interpreter.AddKnownPreimage` | bitcoin_client/ledger_bitcoin/client_command.py:277-289 | A preimage is stored under its hash |
| `ClientInterpreter.Interpreter.GetPreimage` | bitcoin_client/ledger_bitcoin/client_command.py:49-83 | The preimage command answers and queues as the protocol describes |
| `ClientInterpreter.Interpreter.GetMerkleLeafProof` | bitcoin_client/ledger_bitcoin/client_command.py:98-136 | The proof command answers and queues as the protocol describes |
| `ClientInterpreter.Interpreter.GetMerkleLeafIndex` | bitcoin_client/ledger_bitcoin/client_command.py:147-164 | The index command answers as the protocol describes and changes nothing |
| `ClientInterpreter.Interpreter.GetMoreElements` | bitcoin_client/ledger_bitcoin/client_command.py:175-203 | The loop takes as many elements as fit, at least one, off the queue |
| `ClientInterpreter.SortKeys` | bitcoin_client/ledger_bitcoin/client_command.py:329-331 | The keys of a mapping in strictly increasing order |
| `RustInterpreter.Interpreter.Execute` | bitcoin_client_rs/src/interpreter.rs:95-117 | Every request is answered as the Rust protocol describes for what was registered |
| `RustInterpreter.Interpreter.AddKnownList` | bitcoin_client_rs/src/interpreter.rs:58-77 | Registering a non-empty list returns its root, and the vectors are those of all registrations so far; an empty one fails and registers nothing |
| `RustInterpreter.Interpreter.AddKnownMapping` | bitcoin_client_rs/src/interpreter.rs:79-93 | Registering a non-empty mapping registers its sorted keys and its values in the same order |
| `RustInterpreter.Interpreter.AddKnownPreimage` | bitcoin_client_rs/src/interpreter.rs:43-56 | A preimage is stored with its hash, behind all earlier ones |
| `RustInterpreter.Interpreter.GetPreimage` | bitcoin_client_rs/src/interpreter.rs:124-162 | The preimage command answers and queues as the protocol describes |
| `RustInterpreter.Interpreter.GetMerkleLeafProof` | bitcoin_client_rs/src/interpreter.rs:164-221 | The proof command answers and queues as the Rust protocol describes |
| `RustInterpreter.Interpreter.GetMerkleLeafIndex` | bitcoin_client_rs/src/interpreter.rs:223-247 | The index command answers as the Rust protocol describes |
| `RustInterpreter.Interpreter.GetMoreElements` | bitcoin_client_rs/src/interpreter.rs:249-274 | The loop takes as many elements as fit off the queue |
| `Base58.RoundTrip` | bitcoin_client/ledger_bitcoin/_base58.py:28-86 | Decoding an encoding gives back the bytes, for every byte string |
| `Base58.AlphabetInOrder` | src/common/base58.c:40-55 | The alphabet is the digits and letters without 0, O, I and l, in the order of their codes |
| `KnownBase58.KnownSentence` | unit-tests/test_base58.c:12-28 | The encoding and the decoding of the sentence in the unit test |
| `KnownBase58.SameNumberBoth` | src/common/base58.c:57-190 | Bytes and characters that stand for the same number, neither with a zero in front, are translations of each other |
| `Base58.StripZeros` | bitcoin_client/ledger_bitcoin/_base58.py:28-86 | A digit string is its leading zeros followed by the digits of its value |
| `Base58Loops.EncodeDigits` | src/common/base58.c:144-192 | The in-place encoder gives the encoding of the big-integer form for every input up to 120 bytes whose encoding fits the output, and fails otherwise |
| `Base58Loops.MultiplyAdd` | src/common/base58.c:162-172 | One inner loop multiplies the number in the buffer by 256 and adds a byte, although it stops early; no carry is lost and the stop never passes the front |
| `Base58Loops.PutBytes` | src/common/base58.c:159-173 | The buffer of 138n/100+1 digits holds the whole number |
| `Base58Loops.RoomSuffices` | src/common/base58.c:159 | 138k/100+1 digits of base 58 are always enough for k bytes |
| `Base58Loops.DecodeDigits` | src/common/base58.c:57-142 | The in-place decoder gives the decoding of the big-integer form for every input of 2 to 164 characters, and fails for other lengths, for characters outside the alphabet and for short outputs |
| `Base58Loops.Divide` | src/common/base58.c:114-120 | One inner loop divides the number by 256 in place and leaves the remainder |
| `Base58Loops.DivideAll` | src/common/base58.c:111-127 | Repeated division moves the whole number into the bytes of the buffer |
| `Base58Loops.ReadDigits` | src/common/base58.c:78-92 | Every character is translated, or the first foreign one fails |
| `Base58Loops.DeviceRoundTrip` | src/common/base58.c:57-192 | For 2 to 120 bytes the encoding has a length that the decoder takes, and decodes to the bytes |
| `Base58Loops.EncodeNumber` | bitcoin_client/ledger_bitcoin/_base58.py:28-53 | The big-integer encoder gives the encoding |
| `Base58Loops.DecodeNumber` | bitcoin_client/ledger_bitcoin/_base58.py:55-86 | The big-integer decoder gives the decoding, although its count of leading ones leaves out the last character |
| `Bech32.StepLinear` | src/common/segwit_addr.c:30-38 | The checksum step is linear over GF(2) |
| `Bech32.StepInjective` | src/common/segwit_addr.c:30-38 | The checksum step is injective on 30-bit states |
| `Bech32.OneSymbolMatters` | src/common/segwit_addr.c:30-38 | Symbol sequences that differ in exactly one place never lead to the same state |
| `Bech32.ChecksumCompletes` | src/common/segwit_addr.c:85-91 | Feeding the six symbols of a state instead of zeros changes the result by that state |
| `Bech32Words.StepWordIsStep` | src/common/segwit_addr.c:30-38 | The step with masks, shifts and exclusive ors on 32-bit words is the step on bits |
| `Bech32Words.EncodingsApart` | src/common/segwit_addr.c:30-47 | Two symbols, followed by the same 38 or 58 symbols, never lead from one state to the final constants of both encodings |
| `Bech32Strings.SingleErrorDetected` | src/common/segwit_addr.c:96-157 | Two accepted strings with the same prefix, length and encoding never differ in exactly one symbol |
| `Bech32Strings.EncodeDecodes` | src/common/segwit_addr.c:60-157 | Decoding an encoding with a non-empty prefix gives back prefix, data and encoding |
| `Bech32Strings.ChecksumFits` | src/common/segwit_addr.c:85-91 | The appended checksum leads to the constant of the encoding |
| `Bech32Strings.EncodeLoop` | src/common/segwit_addr.c:60-94 | The encoder, which updates the checksum on the way, gives the encoded string or fails for a bad prefix, a bad symbol or a string over 90 characters |
| `Bech32Strings.DecodeLoop` | src/common/segwit_addr.c:96-157 | The decoder gives the decoding, or fails for a bad length, separator, character, mixed case or checksum |
| `Bech32Canonical.DecodesIff` | src/common/segwit_addr.c:60-157 | A string decodes to given contents if and only if it is in one case and its lower-case form is the encoding of these contents |
| `Bech32Canonical.ChecksumUnique` | src/common/segwit_addr.c:30-38 | From every state exactly one choice of six symbols leads to a given state |
| `Bech32Canonical.DecodeCaseFree` | src/common/segwit_addr.c:114-149 | A string in one case decodes as its lower-case form |
| `ConvertBits.Convert` | src/common/segwit_addr.c:159-179 | The loop with its 32-bit accumulator regroups the bits, with zero padding or with the check that what is left over is short and zero |
| `ConvertBits.BytesSurvive` | src/common/segwit_addr.c:159-179 | Bytes regrouped into symbols and back are the same bytes, and their number of symbols |
| `ConvertBits.SymbolsSurvive` | src/common/segwit_addr.c:159-179 | Symbols that regroup into bytes are exactly the symbols of these bytes |
| `SegwitAddress.AddressIff` | src/common/segwit_addr.c:181-212 | An address decodes to a version and program if and only if it is in one case and its lower-case form is the address of that version and program |
| `SegwitAddress.AddressRoundTrip` | src/common/segwit_addr.c:181-212 | Decoding an encoded address gives back version and program |
| `AddressErrors.AddressErrorDetected` | src/common/segwit_addr.c:195-212 | Two different addresses with the same prefix and length, whatever their versions and encodings, differ in at least two characters |
| `SegwitAddress.AddressExists` | src/common/segwit_addr.c:181-193 | Which versions, program lengths and prefixes have an address |
| `SegwitAddress.SegwitAddrEncode` | src/common/segwit_addr.c:181-193 | The encoder gives the address, within its buffer of 65 symbols |
| `SegwitAddress.SegwitAddrDecode` | src/common/segwit_addr.c:195-212 | The decoder gives version and program, within a buffer of 40 bytes |
| `KnownAddresses.KeyhashAddress` | src/common/segwit_addr.c:181-193 | The address of the version 0 program of BIP 173, character by character |
| `KnownAddresses.TaprootAddress` | src/common/segwit_addr.c:181-193 | The address of the version 1 program of BIP 350, with the other checksum constant |
| `KnownAddresses.TestnetAddress` | tests/test_get_wallet_address.py:32 | An address that the tests of the application ask for; the three addresses use all 32 characters |
| `TaptreeParser.RoundTripIff` | bitcoin_client/ledger_bitcoin/descriptor.py:416-610 | Parsing a printed tree gives back its leaves and depths if and only if it has at least two leaves and at most 128 levels |
| `TaptreeParser.ReparseIff` | bitcoin_client/ledger_bitcoin/descriptor.py:416-610 | What was parsed once is parsed again from its printed form if and only if it does not have exactly one leaf |
| `TaptreeParser.AcceptedIsTree` | bitcoin_client/ledger_bitcoin/descriptor.py:574-610 | Every accepted list of leaves and depths is that of a binary tree of at most 128 levels |
| `TaptreeParser.KeyOnlyRoundTrip` | bitcoin_client/ledger_bitcoin/descriptor.py:416-433 | A tr() descriptor without scripts survives printing and parsing |
| `TaptreeParser.ParseTree` | bitcoin_client/ledger_bitcoin/descriptor.py:574-610 | The text of a tree is read as its leaves and depths and leaves what follows it, or is refused for its depth |
| `TaptreeParser.CutLeaf` | bitcoin_client/ledger_bitcoin/descriptor.py:461-477 | An expression is cut at the delimiter behind it, and loses its last character when nothing follows |
| `TaptreeParser.GetExpr` | bitcoin_client/ledger_bitcoin/descriptor.py:461-477 | The loop that counts nesting cuts at that place |
| `TaptreeParser.ParseScripts` | bitcoin_client/ledger_bitcoin/descriptor.py:574-610 | The loop over mutable branches reads what the recursive description reads |
| `TaptreeParser.OpenBranches` | bitcoin_client/ledger_bitcoin/descriptor.py:586-594 | The loop over opening braces |
| `TaptreeParser.CloseBranches` | bitcoin_client/ledger_bitcoin/descriptor.py:599-606 | The loop over closing braces and the comma before a right branch |
| `Taptree.TreePrinted` | bitcoin_client/ledger_bitcoin/descriptor.py:416-433 | Printing from the list of depths gives the bracketed text of the tree |
| `Taptree.ToString` | bitcoin_client/ledger_bitcoin/descriptor.py:416-433 | The loop over the mutable path writes what the recursive description says, for any list of depths |
| `DoubleDabble.ConvertAmount` | src/swap/btchip_bcd.c:20-89 | The text of a 64-bit amount is a numeral without redundant zeros that denotes the amount divided by 10^8 exactly |
| `DoubleDabble.DisplayUnique` | src/swap/btchip_bcd.c:58-88 | An amount has only one such text |
| `DoubleDabble.ToDigits` | src/swap/btchip_bcd.c:36-56 | After all 64 bits the scratch area holds the decimal digits of the amount |
| `DoubleDabble.ShiftIn` | src/swap/btchip_bcd.c:40-55 | One bit takes the decimal value V to 2V plus the bit, keeps all digits at most 9 and all places below smin zero, and never moves smin below 1 |
| `DoubleDabble.DoubledValue` | src/swap/btchip_bcd.c:44-54 | Doubling digit by digit with carries doubles the number |
| `DoubleDabble.WriteInteger` | src/swap/btchip_bcd.c:58-68 | The integer part without leading zeros, but never empty |
| `DoubleDabble.WriteFraction` | src/swap/btchip_bcd.c:69-87 | The fraction without trailing zeros |

## Left out

- TypeSoundness.TypesAreSound: the o flag is the corrected one, and an s: above an or_c that is marked wrongly is excluded, because the property is false there: OneInput.OrCOneInputFails and OneInput.SwapOneInputFails are instances, OneInput.MarkedRun, OneInput.OrCMarkIff and OneInput.SwapRunIff the exact conditions. That the flags are not weaker than the parts allow is stated apart, in LeafExactness, RuleExactness, RuleAcceptance and ThreshExactness.
- TypeSoundness.FragmentSound: the same s: are excluded.
- LeafSoundness.LeafSound: says what a set flag promises; LeafExactness.LeafFlagsExact and LeafExactness.LeafDExact say that no other flag holds.
- LeafExactness.LeafFlagsExact: a timelock is met, and for every digest there is some string of 32 bytes that is not its preimage; without them a fragment has no runs that could break a flag.
- RuleExactness.BinaryFlagsExact: about types whose flags go together as TypeSoundness.FlagsExclusive says. Dissatisfiability is not asked of a part with z, which with d could only be the constant 0. Some key counts as true and has a valid signature. The same holds for RuleExactness.AndOrFlagsExact, RuleExactness.WrapFlagsExact and ThreshExactness.ThreshFlagsExact.
- RuleAcceptance.BinaryAcceptsIff: a B with z in the place of a W would do, and is rejected; RuleAcceptance.ActsIff.
- SignatureFlags.SignatureFlagSound: one direction; UnsignedRuns.UnsignedRun is the other.
- UnsignedRuns.UnsignedRun: the same s: are excluded.
- OneInput.MarkedRun: an s: above an or_c that is marked wrongly is excluded, because what it wraps then has no type that a run could keep; OneInput.SwapRunIff says what such an s: does.
- OneInput.MarkHoldsIff: the same s: are excluded.
- OneInput.OrCRunIff: the marks of X and Z themselves are right; OneInput.MarkedRun covers nested ones.
- OneInput.SwapRunIff: inside X there is no further s: of this kind.
- CanonicalRuns.AllRun: the same s: are excluded, as for CanonicalRuns.CanonicalWaysRun.
- StackSizeExact.StackSizesExact: thresholds above the number of children are excluded, because the property is false for them; StackSizeExact.ThreshExactIff gives the exact condition.
- SignPsbt.HandleSignPsbt: the choice of key and path and the tapleaf hash of a script path are not part of a message; which helper fails is not told apart beyond the status word, and the counters of outputs are unbounded. A client that is not honest may withhold a sequence number or the lock time, which then count as final and zero.
- SigningProperties.WarningsAccepted: names the checks; SigningInBytes.AcceptedExactly spells them out in bytes, in both directions.
- SignPsbt.Session.SignInput: the computation of the signature and of taproot tweaks is a step that may fail unless the client is honest.
- PolicyParser.ParseDescriptorTemplate: the characters of the template are read as the policy they spell; token, number and key syntax, the context rules on nesting and the type flags in the nodes are not part of this function. A buffer that is not 4-aligned is refused by the source and is not modelled.
- PolicyMachine.EmitPolicy: what the source does after a push for which there was no place is not modelled. The emitted script is a list of opcodes; the running hash and the 16-bit length are left out, and so are sortedmulti, multi_a and taproot keys.
- EmittedRuns.EmittedAltAborts: the parts X and Y are emitted as translated and have no s: that is marked wrongly; inside other expressions the same script runs in the same way, but whether the whole then aborts depends on the branches taken.
- MiniscriptAnalysis.ComputeThreshStackSize: thresholds of 130 and more, for which the source reads past the end of its array.
- DeviceMerkle.ComputeCeilLg: sizes above 2^31, for which the loop of the source does not end (DeviceMerkle.CeilLgEndsIff).
- DeviceMerkle.GetIthDirection: the same sizes are excluded.
- CanonicalRuns.CanonicalWaysRun: the same s: are excluded (OneInput.CanonicalSwapFails is an instance), and thresh() has less than 2^31 children, since the interpreter adds numbers of four bytes.
- OneInput.OrCMarkIff: for every digest there is some string of 32 bytes that is not its preimage.
- PythonMerkle.MerkleTree.constructor: the elements are taken to be hashes; the combination of values that are not 32 bytes long, which the source refuses, is a value like any other. Copying a tree and reading a leaf are left out.
- DeviceMerkle.GetMerkleLeafHash: trees of more than 2^31 leaves are excluded for the same reason; the failure codes of the source are one outcome.
- ClientSessions.LookupSession: lists are shorter than 2^64, and the value fits the answer to GET_PREIMAGE; the hash is as for ClientProtocol.CommittedLookup.
- ClientProtocol.CommittedLookup: the hash has values of 32 bytes, and no two of the finitely many strings that are hashed for the lists in question collide; HashedLists.ToyFree and ClientKnowledge.ToyFacts show that this can be met.
- Bech32.StepLinear: the state is held as 30 bits, and Bech32Words.StepWordIsStep connects them with words; bits 30 and 31 of the 32-bit variable are always zero.
- TaptreeParser.RoundTripIff: keys and the internal key contain no braces, parentheses or commas; the parsing of key expressions and the descriptor checksum are left out. Every exception is one outcome.
- The malleability flag m and the fields ops.sat and ops.dsat of the analysis.
- get_merkle_preimage on the device, the PSBT classes of the clients, address derivation, the user interface, the transport layer and all cryptography.
