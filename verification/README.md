# mthydra: a verified model of its protocols

mthydra runs a fleet of proxy boxes from one controller. This project models the parts of it in
which several steps, tables or machines must agree, and proves what they keep. Values are modelled
as datatypes and functions; what the program updates in place (tables in a transaction, loops over
buffers, per-process state) is modelled as classes and loops that are proved to compute the same
functions.

| file | models |
|---|---|
| `BitOps.dfy`, `Bech32.dfy`, `SymbolRegister.dfy`, `Orbit.dfy`, `BechDistance.dfy` | the Bech32 checksum (BIP-173, "Checksum"), and its register taken apart into six symbols |
| `Recipient.dfy`, `TypoLimits.dfy` | the recipient check built on it, and exactly what it lets through |
| `Text.dfy`, `Sorting.dfy`, `Numbers.dfy`, `Json.dfy`, `Utf8.dfy`, `Weights.dfy`, `Payload.dfy` | the canonical JSON bytes of a descriptor payload: printer, reader, sorting, UTF-8 |
| `Sign.dfy`, `Verify.dfy`, `DescriptorChain.dfy` | the signer over its key and history tables, the verifier, and both together |
| `Wire.dfy`, `Refresh.dfy`, `FingerprintPick.dfy`, `Render.dfy`, `Publish.dfy` | the published frame, the agent's refresh loop, its fingerprint choice, whether it can render a configuration, and the way from signer to agent |
| `Backup.dfy` | the backup protocol and crash recovery as a step relation over a log table and an object store |
| `Provision.dfy` | the provisioning and reclaim transactions |
| `Supervisor.dfy` | the supervisor of the agent's child processes |
| `Evaluator.dfy`, `AuditWheel.dfy` | the kill-decision evaluator and the sweep that writes its findings into the obligation table |
| `Snapshot.dfy`, `Alerter.dfy` | the snapshot of obligations and nodes, and the alert sweep over log and acknowledgements |
| `GapMonitor.dfy` | the generation-gap monitor of the backup bucket |

Tables are maps keyed by their primary key, or sequences in order of insertion. Ed25519, SHA-256 and
the JSON library of the agent are function parameters; where a theorem needs it, it assumes that a
signature made with a 32-byte private key checks under its public key and that hashes do not
collide (`Verify.Sound`), and that the agent's library reads object texts as the reader modelled here
does (`Publish.ReadsObjects`). The way Python writes numbers with a fraction is a parameter too; what
it wrote it is taken to write again unchanged (`Json.IsRepr`). Timestamps are numbers of seconds,
except that the cycles of the evaluator and the audit wheel are the texts that the code compares.
Where the database orders other timestamps as texts (cover domains by the time they were added,
acknowledgements by their expiry), all of them are in the one fixed UTC format the code writes, so
numbers keep their order.

## Where the code and its documentation differ

The model follows the code; each difference is stated by a lemma or a contract.

- The recipient check promises to catch typos and truncation. It catches every change within six
  neighbouring characters (`Recipient.TypoRefused`) and every three changed characters, wherever they
  are (`Recipient.ThreeTyposRefused`), but changes within any seven may pass (`TypoLimits.SevenMayGoUnnoticed`);
  `TypoLimits.TypoAcceptedExactly` says exactly which do. It catches one to five characters cut off
  at the end (`Recipient.ShortTruncationRefused`), but not always six (`Recipient.SixMayGoUnnoticed`);
  `Recipient.TruncationAcceptedExactly` says exactly when.
- The verifier promises VerifyError on any refusal. `Verify.EscapesExactly` says, for every text within
  Python's limits on nesting and on the digits of a number, exactly when another exception leaves it:
  for JSON that is no object (`Verify.NonObjectEscapes`), for an exit set that holds something else
  than objects (`Verify.NullExitEscapes`), for an infinite number where a whole one belongs
  (`Verify.InfiniteGenerationEscapes`), for a text with a lone surrogate that becomes part of the
  payload (`Verify.LoneIssuedEscapes`), and for a well signed payload for which the end of the grace
  period cannot be computed (`Verify.NoTimeEscapes`). None but the last needs a key or a signature.
- The refresh tick promises never to raise. `Refresh.RaisesExactly` says exactly when it does: in
  verifying a blob (`Refresh.TickCanRaise`), in the rewrite it calls, and in the termination it calls
  (`Refresh.TerminatingTickRaises`). A rewrite that raised is not tried again while the same blob is
  fetched (`Refresh.FailedRewriteNotRetried`). The agent's rewrite raises for a signed descriptor
  without exits or with an endpoint without a port (`Publish.InstallRaisesExactly`); the signer
  refuses neither.
- The sweep is meant to leave unrelated obligation rows alone. The LIKE operator of the database takes
  an underscore for any character and ignores the case of ASCII letters, so some look-alike keys are
  deleted: `AuditWheel.UnrelatedRows` says exactly which, `AuditWheel.LookAlikeIsDeleted` names one.
- The evaluator promises "healthy" for everything that is neither failing nor pending. Called with a
  threshold of zero or less it finds a probed box without any failure pending
  (`Evaluator.HealthyExactly`). The configuration admits no such threshold
  (src/mthydra/controller/config.py:465-467); only another caller could pass one.
- The backup alarm is meant for the third failure in a row. It counts rows that were never pushed, so
  a failure before the row is started or after the push does not count, and one after the push ends
  the streak: `Backup.ThirdFailureAlarms` says exactly which three failures in a row raise the alarm,
  `Backup.AlarmsExactly` which runs of any length do.
- The supervisor caps the pause before a restart at 8 seconds; the cap is never met, since a restart
  happens with at most three recent crashes (`Supervisor.CheckAgrees`).

## Model

| member | source | states |
|---|---|---|
| Bech32.Absorb | src/mthydra/controller/backup/age_crypt.py:24-27 | one symbol shifted in, generator word by generator word, is the register step |
| Bech32.Polymod | src/mthydra/controller/backup/age_crypt.py:20-28 | the two nested loops compute the run of the register from 1 over all values |
| Bech32.StepLinear | src/mthydra/controller/backup/age_crypt.py:24-27 | the register step is linear over exclusive or |
| Bech32.StepInjective | src/mthydra/controller/backup/age_crypt.py:24-27 | on 30-bit registers the step with a fixed symbol loses nothing |
| Bech32.RunFits | src/mthydra/controller/backup/age_crypt.py:22-28 | the register stays below 2^30 for values of any length |
| Bech32.SymbolsReadable | src/mthydra/controller/backup/age_crypt.py:20-28 | from one register, different runs of up to six symbols end differently |
| Bech32.BurstChangesChecksum | src/mthydra/controller/backup/age_crypt.py:20-28 | a change within six neighbouring symbols changes the checksum, whatever surrounds it and however long |
| BechDistance.SymbolSurvives | src/mthydra/controller/backup/age_crypt.py:20-28 | a symbol other than zero, followed by 1 to 90 zeros, never leaves the register below 32 |
| BechDistance.OrbitsApart | src/mthydra/controller/backup/age_crypt.py:20-28 | two symbols, followed by different numbers of zeros up to 90, lead to registers that differ above the lowest symbol |
| BechDistance.ThreeChangesChecksum | src/mthydra/controller/backup/age_crypt.py:20-28 | changing up to three symbols, the outermost at most 90 places apart, changes the checksum, whatever surrounds them and however long |
| Bech32.ChecksumIsUnique | src/mthydra/controller/backup/age_crypt.py:59-60 | from any register exactly one six-symbol suffix leads to 1 |
| Recipient.ValidateRecipient | src/mthydra/controller/backup/age_crypt.py:35-60 | the guards in their order give the verdict of the specification |
| Recipient.HrpExpandMeans | src/mthydra/controller/backup/age_crypt.py:31-32 | the expansion of a human-readable part is the one list that holds the parts of its characters above their low five bits, then 0, then those five bits |
| Recipient.VerdictExactly | src/mthydra/controller/backup/age_crypt.py:43-60 | which of the seven verdicts any string gets, in terms of its own characters: prefix, capitals, length and place of the last "1", a second "1", the alphabet, the register fed 3, 3, 3, 0, 1, 7, 5 and the data |
| Recipient.AcceptedExactly | src/mthydra/controller/backup/age_crypt.py:43-60 | accepted exactly when of length 10 to 90, starting with "age1", all data characters in the alphabet, and the register that is fed 3, 3, 3, 0, 1, 7, 5 and the data ends at 1 |
| Recipient.TypoRefused | src/mthydra/controller/backup/age_crypt.py:35-60 | every same-length change within six neighbouring characters of an accepted recipient is refused |
| Recipient.ThreeTyposRefused | src/mthydra/controller/backup/age_crypt.py:35-60 | up to three changed characters anywhere in an accepted recipient are refused |
| TypoLimits.TypoAcceptedExactly | src/mthydra/controller/backup/age_crypt.py:35-60 | a text of the same length as an accepted recipient is accepted exactly when it keeps prefix and alphabet and its difference leads the register from 0 to 0 |
| TypoLimits.SevenMayGoUnnoticed | src/mthydra/controller/backup/age_crypt.py:35-60 | in any seven neighbouring data characters of an accepted recipient some change is accepted too |
| Recipient.OneChecksumPerPrefix | src/mthydra/controller/backup/age_crypt.py:31-60 | every human-readable part and data prefix has exactly one checksum |
| Recipient.EncodedIsAccepted | src/mthydra/controller/backup/age_crypt.py:31-60 | every data part of up to 80 symbols, written with its checksum, is accepted |
| Recipient.AcceptedIsEncoded | src/mthydra/controller/backup/age_crypt.py:31-60 | every accepted recipient is one so written |
| Recipient.TruncationAcceptedExactly | src/mthydra/controller/backup/age_crypt.py:38-60 | a cut recipient is accepted exactly when long enough and the part cut off leaves the register at 1 |
| Recipient.ShortTruncationRefused | src/mthydra/controller/backup/age_crypt.py:38-60 | cutting off one to five characters is always refused |
| Recipient.SixMayGoUnnoticed | src/mthydra/controller/backup/age_crypt.py:38-60 | six given characters can be appended to, and so cut off from, accepted recipients unnoticed |
| Text.LessExactly | src/mthydra/descriptor/payload.py:201-212 | the order of texts that the sorts use: after a common beginning one ends or goes on with a smaller character |
| Json.ReadPrinted | src/mthydra/descriptor/payload.py:207-212 | reading a printed value gives the value back, whatever follows it, numbers with fractions and infinite ones included |
| Json.LoadsOfPrint | src/mthydra/descriptor/payload.py:77-82 | json.loads inverts the canonical json.dumps on values with sorted keys |
| Numbers.ScanAgain | src/mthydra/descriptor/payload.py:77-82 | a number scanned is scanned again in full, whatever ends it |
| Json.LoadsIsOrdered | src/mthydra/descriptor/payload.py:77-82 | whatever is read has sorted distinct keys at every level and its numbers as Python writes them |
| Json.PrintIsClean | src/mthydra/descriptor/payload.py:210-212 | no character below 0x20 is ever written, whatever the strings hold |
| Json.ListText | src/mthydra/descriptor/payload.py:210-212 | a list is written in brackets, each further element after a comma and nothing else |
| Json.ObjectText | src/mthydra/descriptor/payload.py:210-212 | an object is written in braces, each further field after a comma, with a colon between key and value and nothing else |
| Utf8.DecodeEncode | src/mthydra/descriptor/payload.py:207-212 | decoding the UTF-8 bytes of a text gives the text |
| Utf8.DecodeExactly | src/mthydra/descriptor/payload.py:78-81 | bytes are read as a text exactly when they are its encoding, so no longer or broken form of it is accepted |
| Utf8.EncodeInjective | src/mthydra/descriptor/payload.py:207-212 | different texts have different UTF-8 bytes |
| Weights.SortIgnoresOrder | src/mthydra/descriptor/payload.py:201-205 | the sorted fingerprint list depends only on what is in the list |
| Weights.SortedExactly | src/mthydra/descriptor/payload.py:201-205 | it is the one list of the same pairs in ascending order of names, and of weights where names are equal |
| Payload.CollectExits | src/mthydra/descriptor/payload.py:99-116 | the loop that appends exits reads the entries, or fails at the first bad one |
| Payload.FieldsRaise | src/mthydra/descriptor/payload.py:83-149 | exactly which objects make the reader fail with AttributeError or OverflowError, and which are read to a payload that cannot be encoded |
| Payload.ReadsExactly | src/mthydra/descriptor/payload.py:83-148 | which objects are read as a payload: only the ten keys, one of three schemas, the optional keys with the third only, readable exits and fingerprints, two whole numbers, two times, and no lone surrogate in what is kept |
| Payload.KeysWritten | src/mthydra/descriptor/payload.py:190-208 | which keys the dictionary written has, for every schema |
| Payload.TreeHolds | src/mthydra/descriptor/payload.py:190-208 | what it holds under each key but the two lists, and the strategy only for v3 and unless empty |
| Payload.ExitsWritten | src/mthydra/descriptor/payload.py:168-188 | under the exits: those of the payload in order, with three fields in v1 and five after it |
| Payload.FingerprintsWritten | src/mthydra/descriptor/payload.py:201-205 | under the fingerprints, for v3 and if there are any: each pair of the payload once, by name and then by weight |
| Payload.RoundTrip | src/mthydra/descriptor/payload.py:72-212 | parsing the canonical bytes of any well-typed payload gives its normal form |
| Payload.ReadBackHolds | src/mthydra/descriptor/payload.py:72-212 | what is read back, field by field: everything as it was, but the fingerprints by name and weight, an empty list or strategy absent, and the fields of later schemas dropped |
| Payload.NormalSameTree | src/mthydra/descriptor/payload.py:151-212 | the normal form prints exactly like the payload |
| Payload.SameBytesIffSameNormal | src/mthydra/descriptor/payload.py:151-212 | two payloads have the same bytes exactly when they have the same normal form |
| Payload.TreeSorted | src/mthydra/descriptor/payload.py:186-212 | the dictionary written has its keys in order for every schema and choice of optional fields |
| Sign.Signer.SignNewDescriptor | src/mthydra/descriptor/sign.py:66-141 | a signing appends exactly the row of the specification, or fails with the tables unchanged |
| Sign.SignedHoldsInput | src/mthydra/descriptor/sign.py:86-132 | a signing that succeeds adds one row, whose blob reads as a payload that holds the exits, times, next key, fingerprints and strategy it was given, the next generation, the newest active key, which signed it, and the hash of the row before |
| Sign.SignAnswers | src/mthydra/descriptor/sign.py:47-84 | exactly when a signing succeeds and how it fails: fingerprints before keys, then the newest active key, its placeholder and its length |
| Sign.RowStays | src/mthydra/descriptor/sign.py:66-141 | in every run the row that a signing or rotation added stays where it was and holds the input of that operation |
| Sign.ActiveKeyIsNewest | src/mthydra/descriptor/sign.py:47-63 | the active key is the newest not retired; there is none exactly when all are |
| Sign.RotationActivates | src/mthydra/controller/cli.py:1702-1719 | a rotation retires the active key at the given time, leaves every other key, adds the next generation as the active one and keeps the keys whatever the signing does; or is refused without an active key or if that generation exists |
| Sign.SignKeeps | src/mthydra/descriptor/sign.py:86-122 | signing keeps every row a canonical, linked, attested payload |
| Sign.RotateKeysKeeps | src/mthydra/controller/cli.py:1702-1719 | rotation keeps one key per generation and every earlier row attested |
| Sign.RunKeeps | src/mthydra/descriptor/sign.py:66-141 | the same over every run of signing and rotation |
| Verify.VerifyChain | src/mthydra/descriptor/verify.py:110-132 | the loop returns the payloads of a chain accepted throughout, or stops at the first element not accepted |
| Verify.VerdictExactly | src/mthydra/descriptor/verify.py:54-107 | the verdict on the canonical bytes of any payload, check by check and in order: the key of the last trusted entry of its generation, signature, a deadline so many hours after the time written, and the link |
| Verify.AcceptsExactly | src/mthydra/descriptor/verify.py:26-107 | canonical bytes are accepted exactly when signed under the last trusted key of their generation, not later than so many hours after the time their validity ends, and rightly linked |
| Verify.AcceptedIsNormal | src/mthydra/descriptor/verify.py:42-56 | an accepted blob is the canonical form of the payload returned, with no conversion of other types |
| Verify.EscapesExactly | src/mthydra/descriptor/verify.py:26-107 | over every blob whose text is within Python's limits, another exception than VerifyError leaves the verifier exactly when the text is JSON but no object; or an object whose exit set meets, before any other fault, an entry that is no object; or whose first fault is an infinite number where a whole one belongs; or that is read in full but keeps a lone surrogate; or all is well signed but the end of the grace period cannot be computed |
| Verify.NonObjectEscapes | src/mthydra/descriptor/verify.py:47-50 | the first class: any JSON that is no object |
| Verify.NullExitEscapes | src/mthydra/descriptor/payload.py:99-116 | the second class: a v3 object whose exit set is a null |
| Verify.InfiniteGenerationEscapes | src/mthydra/descriptor/payload.py:137-139 | the third class: a v3 object whose generation is infinite |
| Verify.LoneIssuedEscapes | src/mthydra/descriptor/payload.py:207-212 | the fourth class: the canonical text of any well-typed payload, its time of issue replaced by a lone surrogate |
| Verify.NoTimeEscapes | src/mthydra/descriptor/verify.py:72-79 | the last class: any well-typed payload, signed under a trusted key, whose validity cannot be read as a time or to which the grace cannot be added |
| Verify.ChainShape | src/mthydra/descriptor/verify.py:80-132 | each element of an accepted chain is generation 1 without a back link, or links to the blob just before it; the first is generation 1 |
| DescriptorChain.EverySignedDescriptorVerifies | src/mthydra/descriptor/verify.py:26-107 | over every run, each stored descriptor is accepted with its key and predecessor exactly until so many hours after the time its validity ends, if that can be computed |
| DescriptorChain.HistoryIsAccepted | src/mthydra/descriptor/verify.py:110-132 | the whole history is accepted as a chain exactly while for none of its rows more than a day has passed since the end of its validity |
| DescriptorChain.AcceptedChainIsPrefixes | src/mthydra/descriptor/verify.py:110-132 | a chain accepted from blobs of one history is a concatenation of prefixes of it |
| Wire.SplitExactly | src/mthydra/descriptor/sign.py:29-44 | a blob splits into a payload and a signature exactly when it was made of them |
| Wire.FramedExactly | src/mthydra/descriptor/sign.py:29-44 | the bytes of a frame: the length of the payload, high byte first, the payload and 64 bytes of signature |
| Refresh.RefreshLoop.constructor | src/mthydra/ru_agent/descriptor_refresh.py:43-63 | the loop starts with the initial blob, its hash and no failures |
| Refresh.RefreshLoop.Verify | src/mthydra/ru_agent/descriptor_refresh.py:69-91 | the checks and the loop over the anchors give the specified verdict |
| Refresh.VerifiedExactly | src/mthydra/ru_agent/descriptor_refresh.py:69-91 | a blob is verified as a value exactly when it is framed, its signature checks under an anchor with only 32-byte anchors up to it, and its payload reads as that value |
| Refresh.RefreshLoop.CountFailure | src/mthydra/ru_agent/descriptor_refresh.py:97-101 | a failure is counted, and from the 24th on the termination is called |
| Refresh.RefreshLoop.Tick | src/mthydra/ru_agent/descriptor_refresh.py:93-126 | one tick changes the state and reports exactly as specified, whatever the rewrite and the termination it calls do |
| Refresh.RunKeeps | src/mthydra/ru_agent/descriptor_refresh.py:93-126 | over every run, whatever the called functions do: the held blob is initial or verified, its hash is held, the counter is the failing streak, termination is called exactly at streaks of 24 or more, a rewrite only with new verified blobs |
| Refresh.RewritesExactly | src/mthydra/ru_agent/descriptor_refresh.py:107-126 | in every run a tick calls the rewrite exactly when it fetched a verified blob other than the held one, and exactly then the held blob changes, to that one |
| Refresh.InForceUnlessBehind | src/mthydra/ru_agent/descriptor_refresh.py:107-126 | in every run the blob of the last completed rewrite is the held one, unless the last rewrite called raised |
| Refresh.FailedRewriteNotRetried | src/mthydra/ru_agent/descriptor_refresh.py:107-126 | after a rewrite that raised, exactly a tick with yet another verified blob and a completed rewrite ends that; fetching the held blob counts as success |
| Refresh.TickLeaves | src/mthydra/ru_agent/descriptor_refresh.py:93-126 | a tick fails exactly when nothing was fetched or a new blob is rejected, and then changes only the counter and requests the termination from 24 on; one that calls the rewrite has replaced blob, hash, token and counter even if the call raises, one that raises in verifying changes nothing, any other clears the counter and keeps the token of the server |
| Refresh.RaisesExactly | src/mthydra/ru_agent/descriptor_refresh.py:69-126 | a tick raises exactly when verifying a new blob does (an anchor of the wrong length met first, or signed bytes that are no text), when the rewrite called with a new verified blob does, or when it fails at a streak of 24 and the termination does |
| Refresh.TickCanRaise | src/mthydra/ru_agent/descriptor_refresh.py:93-126 | with a first anchor of the wrong length every new framed blob makes the tick raise, the state unchanged |
| Refresh.TerminatingTickRaises | src/mthydra/ru_agent/descriptor_refresh.py:97-101 | with a termination that raises, as one that exits does, a failing tick at a streak of 24 raises after counting |
| FingerprintPick.ReadPairs | src/mthydra/ru_agent/config_gen.py:21-26 | the loop over the list reads all pairs or fails at the first malformed entry |
| FingerprintPick.Sum | src/mthydra/ru_agent/config_gen.py:30 | the total of the positive weights |
| FingerprintPick.Walk | src/mthydra/ru_agent/config_gen.py:35-40 | the walk returns the owner of the bucket that holds the index, the last name if there is none |
| FingerprintPick.Choose | src/mthydra/ru_agent/config_gen.py:15-40 | the whole choice, errors and defaults included |
| FingerprintPick.FallbackUnreachable | src/mthydra/ru_agent/config_gen.py:33-40 | the walk finds a bucket exactly for the indices below the total, so the fallback is never used |
| FingerprintPick.SharesAreExact | src/mthydra/ru_agent/config_gen.py:30-39 | each fingerprint is chosen by as many indices as its positive weights add up to |
| FingerprintPick.PickExactly | src/mthydra/ru_agent/config_gen.py:27-40 | for any list, whatever its order and repetitions: the name picked is the one for which the positive weights of smaller names add up to at most the remainder, and together with its own to more; an unknown name is refused and without positive weights "chrome" is picked |
| FingerprintPick.PickHasWeight | src/mthydra/ru_agent/config_gen.py:30-39 | with a positive total the choice is always a listed fingerprint of positive weight |
| FingerprintPick.PickIgnoresOrder | src/mthydra/ru_agent/config_gen.py:15-40 | reordering the list, unknown entries included, never changes the outcome, exactly when it does not hold both an entry of infinite weight and one malformed in another way |
| FingerprintPick.SameOutcomeExactly | src/mthydra/ru_agent/config_gen.py:21-26 | two orders of a list have the same outcome exactly when both or neither meet an infinite weight first among what cannot be read |
| FingerprintPick.OrderCanMatter | src/mthydra/ru_agent/config_gen.py:21-26 | two entries that give a ConfigError in one order and an OverflowError in the other |
| Render.RenderExits | src/mthydra/ru_agent/config_gen.py:81-102 | the loop over the exits succeeds exactly when each is an object with the four fields and an endpoint that ends in a colon and a number |
| Render.RenderSingBoxConfig | src/mthydra/ru_agent/config_gen.py:62-136 | no exits and a refused fingerprint list give a ConfigError, in that order; an unusable exit raises; otherwise a text is rendered |
| Render.RendersExactly | src/mthydra/ru_agent/config_gen.py:71-136 | exactly when a descriptor with a list of exits is rendered: not empty, a fingerprint picked, and each exit an object with the four fields and an endpoint that is a number after its last colon |
| Publish.AgentAccepts | src/mthydra/ru_agent/descriptor_refresh.py:69-91 | a descriptor of any signing history fits the frame up to 65535 bytes and then verifies on an agent with its key, which reads the payload signed and can choose a fingerprint |
| Publish.AgentReadsInput | src/mthydra/ru_agent/descriptor_refresh.py:69-91 | in every run the row that any signing or rotation added verifies on an agent with its key as a payload that holds the input of that operation, and the agent picks the fingerprint of the list given, whatever its order |
| Publish.AgentInstalls | src/mthydra/ru_agent/descriptor_refresh.py:93-126 | a tick that fetches it, holding anything else, installs it, clears the failures and calls the rewrite with it, raising exactly when that does |
| Publish.SignedRendersExactly | src/mthydra/ru_agent/config_gen.py:62-136 | the payload of a signer is rendered exactly when it has exits and each endpoint ends in a colon and a number; without exits it is refused |
| Publish.InstallRaisesExactly | src/mthydra/ru_agent/__main__.py:246-264 | over every signing history, the tick that installs a descriptor raises exactly when that has no exits or an endpoint without a port |
| Backup.StepKeeps | src/mthydra/controller/backup/pipeline.py:82-124 | every step of a backup or recovery, a crash included, keeps the invariant and never lowers the index |
| Backup.ReachableIsDurable | src/mthydra/controller/backup/pipeline.py:82-124 | in every reachable state a pushed row's blob is stored under its hash and size, the index names such a row, and the index generation never falls |
| Backup.RecoveryCompletes | src/mthydra/controller/backup/reconcile.py:24-46 | a completed recovery stamps and counts exactly the rows pushed and not indexed whose blobs are stored, and rewrites the index from the highest of them unless it is as high already |
| Backup.RecoverKeepsDurable | src/mthydra/controller/backup/reconcile.py:24-46 | a completed recovery keeps every pushed row's blob stored under its hash and size, and the index naming one |
| Backup.RecoveryOfReachable | src/mthydra/controller/backup/reconcile.py:12-46 | from every reachable idle state a completed recovery leaves no pending row at all and an index that covers every pushed generation |
| Backup.SecondRecoveryIsIdle | src/mthydra/controller/backup/reconcile.py:12-46 | an immediate second recovery returns 0 and changes nothing |
| Backup.RecoveryOrderIrrelevant | src/mthydra/controller/backup/reconcile.py:26-46 | the result does not depend on the order of the pending rows |
| Backup.RecoveryIsRun | src/mthydra/controller/backup/reconcile.py:24-46 | the loop is a run of the step relation |
| Backup.BackupIsRun | src/mthydra/controller/backup/pipeline.py:82-124 | any first steps of a backup are a run of the step relation |
| Backup.BackupLeaves | src/mthydra/controller/backup/pipeline.py:82-124 | what any first steps of a backup leave: one new row after the greatest generation, with the size and hash of the blob from the push on, the blob under it, and an index that names it |
| Backup.StreakCounts | src/mthydra/controller/state/backup_log.py:94-118 | the scan counts the rows newer than the newest pushed one |
| Backup.StreakAfterSteps | src/mthydra/controller/backup/pipeline.py:82-124 | a backup that stops before its row is started leaves the streak, one that stops before the push adds one, any later one clears it |
| Backup.StreakAfterCalls | src/mthydra/controller/backup/pipeline.py:51-124 | over any run of calls the streak counts those stopped between start and push since the last push |
| Backup.AlarmsExactly | src/mthydra/controller/backup/pipeline.py:63-80 | the last of any calls raises the alarm exactly when it failed and at least three were so stopped since the last push |
| Backup.ThirdFailureAlarms | src/mthydra/controller/backup/pipeline.py:63-80 | of three failures in a row from a streak of zero the third raises the alarm exactly when each stopped after its row was started and before the push |
| Backup.Controller.MaxOfLog | src/mthydra/controller/state/backup_log.py:27-29 | the greatest generation, 0 for an empty log |
| Backup.Controller.ListPending | src/mthydra/controller/state/backup_log.py:121-127 | all rows pushed and not indexed, once each, in order |
| Backup.Controller.ReconcilePending | src/mthydra/controller/backup/reconcile.py:12-48 | the loop in place is a completed recovery of the pending rows and has its whole effect |
| Backup.Controller.CountConsecutiveFailures | src/mthydra/controller/state/backup_log.py:94-118 | the scan from the newest row counts the rows newer than the newest pushed one |
| Backup.Controller.DoBackupLocked | src/mthydra/controller/backup/pipeline.py:82-124 | stopped after any number of operations it leaves exactly the state of that run; completed, it returns the new generation |
| Backup.Controller.DoBackup | src/mthydra/controller/backup/pipeline.py:51-124 | a backup that fails after any number of steps leaves exactly the state of that run, with the alarm at a streak of three, never for a failure after the push |
| Provision.ProvisionTxEffect | src/mthydra/controller/provisioning/seed.py:248-322 | what a committed provisioning changes, table by table: the new box, the domain that terminated boxes let go, the domain in use, the credential, the shard made on demand, the audit row |
| Provision.ReclaimTxEffect | src/mthydra/controller/provisioning/reclaim.py:34-89 | what a reclaim answers and changes, table by table: the box terminated, its domain verified again with its attestation, its unrevoked credentials revoked, two audit rows |
| Provision.ProvisionKeeps | src/mthydra/controller/provisioning/seed.py:248-322 | a committed provisioning keeps the correspondence of boxes, domains and credentials |
| Provision.ReclaimKeeps | src/mthydra/controller/provisioning/reclaim.py:61-89 | a committed reclaim keeps it too and leaves the box no unrevoked credential |
| Provision.RunKeepsInv | src/mthydra/controller/provisioning/seed.py:248-322 | the same over every run of adding, verifying, provisioning, going live and reclaiming |
| Provision.OneToOne | src/mthydra/controller/provisioning/seed.py:248-322 | domains in use and active boxes correspond one to one, snis are unique, active boxes have exactly one unrevoked credential and others none |
| Provision.OldestIsUnique | src/mthydra/controller/provisioning/seed.py:177-201 | there is only one oldest verified candidate |
| Provision.ReclaimUndoesProvision | src/mthydra/controller/provisioning/reclaim.py:61-89 | provision then reclaim restores the cover pool exactly |
| Provision.CommitsExactly | src/mthydra/controller/provisioning/seed.py:248-322 | the transaction commits exactly when the shard exists unretired or is the default one, the identifiers are unused, and each terminated box with the domain can be renamed; and which error it fails with otherwise |
| Provision.ProvisionAgain | src/mthydra/controller/provisioning/seed.py:177-322 | after a reclaim the same domain is picked, and the second transaction commits under an exact condition and keeps everything |
| Provision.Tables.PickOldest | src/mthydra/controller/provisioning/seed.py:177-201 | a verified domain such that no verified domain was added earlier, nor at the same time with a smaller name; or none if there is none |
| Provision.Tables.ProvisionBox | src/mthydra/controller/provisioning/seed.py:140-328 | the checks before the transaction in their order; a failure anywhere up to and including the commit leaves every table as it was; otherwise the verified domain added first, ties by name, was provisioned, even if the image URL fails |
| Provision.Tables.ReclaimBox | src/mthydra/controller/provisioning/reclaim.py:25-91 | a failure anywhere, the commit included, leaves every table as it was; otherwise the whole reclaim took place |
| Supervisor.Supervisor.CheckChildrenOnce | src/mthydra/ru_agent/supervisor.py:59-80 | each child is checked on its own crash list until one is reported, the rest untouched |
| Supervisor.LookedAtExactly | src/mthydra/ru_agent/supervisor.py:59-80 | exactly the children after one that is reported are not looked at, and only the list of a child found dead changes |
| Supervisor.RecentExactly | src/mthydra/ru_agent/supervisor.py:69-80 | the crash times kept are exactly those less than 300 s old |
| Supervisor.CheckAgrees | src/mthydra/ru_agent/supervisor.py:69-80 | after a detection the pruned list equals the full history cut to 300 s, failure is reported exactly at four, and the pause is 1 to 4 s |
| Supervisor.RunKeeps | src/mthydra/ru_agent/supervisor.py:59-80 | every child's list agrees with its history over every run with a clock that does not run backwards |
| Supervisor.FailureExactly | src/mthydra/ru_agent/supervisor.py:69-80 | in any run a dead child is reported exactly when its whole history has at least three more detections less than 300 s old, and is restarted otherwise after 1, 2 or 4 s for none, one or two of them |
| Supervisor.RunRestartsFew | src/mthydra/ru_agent/supervisor.py:59-80 | in any run no 300 s hold more than three detections that led to a restart of one child |
| Evaluator.NewestSorts | src/mthydra/controller/probe/evaluator.py:104-108 | the query lists exactly the results of the box, newest first |
| Evaluator.WindowExactly | src/mthydra/controller/probe/evaluator.py:101-108 | the window: as many rows of the box as the limit allows, later cycles first and greater ids first within one, and nothing left out that comes earlier |
| Evaluator.OldResultsIgnored | src/mthydra/controller/probe/evaluator.py:101-108 | any number of results of other boxes, or that sort behind M of the box, change nothing |
| Evaluator.VerdictMonotone | src/mthydra/controller/probe/evaluator.py:117-167 | worsening any results never lowers the verdict |
| Evaluator.MinimumIsPossible | src/mthydra/controller/probe/evaluator.py:35-55 | the vantage minimum is the configured one up to the fleet, or half the fleet, but at least 1, and grows with the fleet |
| Evaluator.HealthyExactly | src/mthydra/controller/probe/evaluator.py:110-167 | exactly when the verdict is healthy, and when it is a hard kill |
| Evaluator.ThresholdExactly | src/mthydra/controller/probe/evaluator.py:128-146 | the threshold is reached exactly with no hard failure, at least N softly failing positions and enough vantages among them |
| Evaluator.FindingsExactly | src/mthydra/controller/probe/evaluator.py:117-160 | the checks named are exactly those of the failing rows of the window, and the vantages counted those of the soft failures or, for a hard kill, of the whole window |
| Evaluator.EvidenceExactly | src/mthydra/controller/probe/evaluator.py:117-160 | the evidence is the ids of the failing rows, one for each, in the order of the window |
| AuditWheel.MaxCycleIsGreatest | src/mthydra/controller/state/probe_results.py:90-94 | the last cycle is the greatest of the box's results, if it has any |
| AuditWheel.Wheel.SweepVerdict | src/mthydra/controller/probe/audit_wheel.py:109-148 | one box: kill or blocked row set, or both deleted, all others unchanged |
| AuditWheel.Wheel.SweepCoverage | src/mthydra/controller/probe/audit_wheel.py:150-168 | one box: coverage row set or deleted, all others unchanged |
| AuditWheel.Wheel.RunOnce | src/mthydra/controller/probe/audit_wheel.py:94-221 | after the sweep every key of the table holds exactly the expected row, and the report is right |
| AuditWheel.LiveRows | src/mthydra/controller/probe/audit_wheel.py:108-168 | the three rows of a live box, contents included: a fresh kill row with the findings exactly on a kill verdict, the earlier one while blocked, a fresh blocked row with the image, a fresh coverage row exactly when the last cycle is missing or too old |
| AuditWheel.HeartbeatCounts | src/mthydra/controller/probe/audit_wheel.py:208-212 | the row of the sweep itself counts the live boxes with a kill verdict, uncovered or blocked, and the overdue vantages |
| AuditWheel.RowsFromTables | src/mthydra/controller/probe/audit_wheel.py:108-168 | the same in terms of the tables: blocked means a missing profile, a kill row a verdict of hard kill or threshold reached by the evaluator given the images and the number of active vantages, and an empty cycle time counts as none |
| AuditWheel.OtherBoxRows | src/mthydra/controller/probe/audit_wheel.py:170-180 | a box that is not live has no kill row; its other rows stay |
| AuditWheel.VantageRows | src/mthydra/controller/probe/audit_wheel.py:182-206 | a vantage has a fresh row if active and attested longer ago than the days allowed, none if not active, any other its earlier one |
| AuditWheel.UnrelatedRows | src/mthydra/controller/probe/audit_wheel.py:170-206 | rows with other keys are untouched except exactly the look-alikes of the two LIKE patterns |
| AuditWheel.LookAlikeIsDeleted | src/mthydra/controller/probe/audit_wheel.py:170-180 | one key that is deleted though it is no kill row |
| AuditWheel.SecondSweepIdle | src/mthydra/controller/probe/audit_wheel.py:94-221 | a second sweep of the same world at the same time changes no row |
| Snapshot.CollectSnapshot | src/mthydra/controller/observability/snapshot.py:155-230 | the loops build the three lists of clocks and the list of nodes as specified |
| Snapshot.ClassifyExactly | src/mthydra/controller/observability/snapshot.py:111-123 | a key is an anti-obligation about a target exactly when it is one of the sixteen prefixes, "::" and the target, and one without a target when it is one of two keys |
| Snapshot.EachRowOnce | src/mthydra/controller/observability/snapshot.py:169-203 | every row of the clock table is in exactly one of the three lists |
| Snapshot.ListedExactly | src/mthydra/controller/observability/snapshot.py:165-230 | which clocks and nodes are in which list: by key, by whether the due time has passed, by role |
| Snapshot.SeverityGrows | src/mthydra/controller/observability/severity.py:33-62 | time alone never lowers the severity of a row or node |
| Snapshot.AntiSeverity | src/mthydra/controller/observability/severity.py:11-38 | the severity of every kind of anti-obligation, missing coverage turning critical after six hours |
| Snapshot.NodeSeverity | src/mthydra/controller/observability/severity.py:54-62 | the severity of a node by its role and the age of its heartbeat, and without any |
| Snapshot.ClockSeverity | src/mthydra/controller/observability/severity.py:41-51 | the seconds a clock is overdue, and its severity by twice the cadence known for its kind or derived from its times |
| Alerter.BuildDecisions | src/mthydra/controller/observability/alerter.py:235-287 | the three loops build the decisions of the snapshot in order |
| Alerter.DecidedExactly | src/mthydra/controller/observability/alerter.py:235-287 | what is decided: every anti-obligation under its own key, every overdue clock and silent node rated above info under a key made of kind and id |
| Alerter.Sweeper.Dispatch | src/mthydra/controller/observability/alerter.py:148-173 | one row per routed sink is appended, and the deliveries are counted |
| Alerter.Sweeper.Acknowledge | src/mthydra/controller/state/alert_acks.py:25-50 | an acknowledgement is appended, or refused without evidence |
| Alerter.Sweeper.RunOnce | src/mthydra/controller/observability/alerter.py:106-182 | a sweep appends exactly the rows of the decisions due on the log before it, with the right counts |
| Alerter.KeysAreDistinct | src/mthydra/controller/observability/alerter.py:235-287 | all keys of one sweep are distinct |
| Alerter.EveryOverdueRowDecided | src/mthydra/controller/observability/alerter.py:257-259 | no overdue row is ever rated info and skipped: each gives a decision |
| Alerter.AckHolds | src/mthydra/controller/state/alert_acks.py:25-59 | an acknowledgement holds for its key exactly until it expires |
| Alerter.DispatchesSpaced | src/mthydra/controller/observability/alerter.py:191-201 | in any run a row logged by a sweep comes at least its window after every earlier row of its key |
| Alerter.AttemptsExactly | src/mthydra/controller/observability/alerter.py:57-173 | the rows logged for a decision, exactly when not acknowledged and its last attempt at least the window old: messenger then mail for a critical one, messenger for a warning, none otherwise |
| Alerter.CountsExactly | src/mthydra/controller/observability/alerter.py:114-180 | the counts a sweep returns: deliveries that succeeded, decisions with a recent attempt, and acknowledged ones |
| Alerter.OthersGetNoRow | src/mthydra/controller/state/alert_acks.py:53-59 | an acknowledged key, or one without a decision, gets no row |
| Alerter.NoKeySilent | src/mthydra/controller/observability/alerter.py:114-201 | after a sweep every critical or warning decision without a valid acknowledgement has an attempt now or less than its window ago |
| GapMonitor.LastSeenIsGreatest | mthydra-backup-monitor/src/mthydra_backup_monitor/poller.py:44-54 | over every run the last seen generation is the greatest seen and never decreases |
| GapMonitor.NoEarlyAlarm | mthydra-backup-monitor/src/mthydra_backup_monitor/poller.py:57-63 | in a stuck episode of any run no alarm comes earlier than the threshold |
| GapMonitor.EpisodeAlarmsSpaced | mthydra-backup-monitor/src/mthydra_backup_monitor/poller.py:61-69 | two alarms of one episode are at least the repeat time apart |
| GapMonitor.DuePollCovered | mthydra-backup-monitor/src/mthydra_backup_monitor/poller.py:57-69 | no poll that is due stays silent: it alarms, or an alarm of the episode is less than the repeat time old |
| GapMonitor.EpisodeCount | mthydra-backup-monitor/src/mthydra_backup_monitor/poller.py:57-69 | an episode of length D raises at most 1 + (D - T) / R alarms |
| GapMonitor.UnknownBeginning | mthydra-backup-monitor/src/mthydra_backup_monitor/poller.py:54-59 | without a known beginning an alarm comes no earlier than the threshold after some earlier poll that read the index |

## Left out

- Cryptography, hashing, PEM and the age tool: function parameters or absent.
- S3 and B2, SMTP, Telegram, GitHub, ssh, systemctl and subprocess calls: the object store is a map and an index, a sink is a function that says whether it delivered, a fetch is an input.
- Python's limits: a text nested too deep for its recursion limit makes RecursionError escape the verifier and the refresh loop, and a number of more than 4300 digits is refused; neither limit is modelled.
- Verify.EscapesExactly: is stated for texts within these limits.
- What str() and int() make of JSON values of other types: a parameter of the payload reader, a function of the value with its keys in order, though str() of a dictionary shows the order they were read in; int() failing with TypeError counts as ValueError, which every caller treats alike.
- Case folding of characters outside ASCII in the recipient check: such a recipient is refused either way, at another guard.
- Unreadable timestamps in the probe, alert and gap code, where parsing raises: only the next-due time, for which the code handles it, can be unreadable here.
- Threads, timers, APScheduler and the backup mutex: a sweep, tick, poll or transaction is one step, and each reads its clock once. A recovery uses one clock reading for all rows.
- Crashes inside one sweep of the audit wheel or the alerter: their rows are committed one by one.
- Audit-log details and the audit rows of sweeps and alerts: only those of provisioning and reclaim, which must roll back with the rest.
- Message texts, remediation, QR codes, cloud-init, presigned URLs: absent, except that minting the image URL can fail after the commit.
- The heartbeat obligation of the alerter and compaction of the alert log.
- `ru-box-terminate`, `cover-rotate`, burned domains and downgrading of stale domains: other operations on the provisioning tables.
- `abandon_zombie_starts`: it only relabels triggers, which nothing modelled reads.
- The order of the offending checks in an evaluation and of the lists a sweep returns: kept as sets.
- The shard reshuffle wheel, image promotion, installers, wizards and the rest of the command line.
- Sign.Signer.SignNewDescriptor: exits are an input, since the exit table is not part of this model; a missing exit table cannot fail.
- Sign.RotateKeysKeeps: a rotation is tried with 32-byte private keys only, the only kind the key generator makes.
- AuditWheel.Wheel.RunOnce: the sweep's queries see one state of the boxes, vantages and results, not changes made while it runs.
- Recipient.ThreeTyposRefused: four or more changes scattered over more than six characters, some of which BIP-173 says are always noticed too, are covered by the condition of TypoLimits.TypoAcceptedExactly only.
- Render.RenderSingBoxConfig: whether there is a text, not which; Publish.InstallRaisesExactly takes it that writing the file, signalling the client and refreshing its desync rules do not raise.
- Supervisor.Supervisor.CheckChildrenOnce: starting a child, pausing and the callback that reports a failure do not raise.
- Backup.Controller.DoBackup: the alarm's own reading of the log does not fail; in the code such a failure counts as a streak of zero.
- Provision.Tables.ProvisionBox: rolling back is putting the tables of the start back, so that a failed call changes nothing holds by that; what is proved is that no failure is missed and what a commit has done.
- Snapshot.CollectSnapshot: the fleet counts and the summary line of the snapshot are not part of it.
