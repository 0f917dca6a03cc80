# A verified model of the secret broker

The broker keeps generated secrets in an encrypted SQLite vault, hands them to approved commands
through the environment, redacts the commands' output, and logs what it did in an authenticated
chain. This project models the four parts of it that carry state or combinatorics, and proves what
they do for every input, every run and every interleaving.

| Files | Subject |
|---|---|
| `Redaction`, `RedactionLive`, `RedactionWriter`, `RedactionTheorems` | The one-shot redactor, the streaming writer (a class over its buffer and its private copies), and exactly when the two agree |
| `Generator`, `GeneratorUniform`, `GeneratorStreams`, `Counting` | Rejection sampling over batches of random bytes: what the loops compute, how many byte sequences and whole random streams lead to each secret, the reported strength |
| `GeneratedSecrets`, `GeneratedRuns` | Generated secrets through the redactors, and from the vault's requests to a run's redacted output |
| `Timestamp`, `Audit` | RFC 3339 texts with trimmed fractions, and the chain of audit rows that is ordered by them |
| `Model`, `SecureCrypto`, `Framing` | Entities, idealised cryptography, and the concrete byte framings it is bound to |
| `PlainVault`, `Vault` | The vault as a plain map, and the tables, statements and transactions that implement it |
| `Machine`, `Invariant`, `Preservation`, `Interleavings` | Concurrent requests as read step and commit step, the invariant of every interleaving, and what follows from it |
| `RecordedVersions` | The version recorded in metadata against the last version row: which interleavings keep them equal, and what becomes of a secret once they differ |
| `Races` | Rotation as compare-and-swap: exactly when a committed rotation finds the row it read, and the revokes it overwrites unseen |
| `LogRuns` | A run whose log is rejected though nobody tampered with it |
| `Serial` | One request at a time, with locks and unlocks: the store refines the plain map |
| `Answers` | What each request is answered and leaves, field by field, and exactly when it fails |
| `Provenance` | Which request each commit of a run carries out, and what stays the same under one name |
| `Store`, `Broker` | The store as a class whose fields change statement by statement, with roll-back, tied to the concurrent model; listings and lookups for a run |

## How the vault theorems fit together

`Machine.Step` runs any mixture of begun and advanced requests, locks and unlocks. A request reads
(copying the keys and a snapshot) and later commits; everything else may happen between. Beside the
tables the machine records the history of commits, and `PlainVault.Replay` replays that history on a
map from full names to value, version and state. `Invariant.SystemOK` relates tables, replayed map,
action history, audit rows, tasks under way and answers given; `Preservation.RunKeeps` shows that
every run keeps it. The theorems of `Interleavings` read off what it means. `Store.Store` performs the
same transactions in place, and `Broker.Broker.Handle` shows that handling a request leaves the tables
and gives the answer that the two steps give with nothing in between. `Answers` says what those answers
and tables are in the request's own fields, with names written out, and `Provenance` does so for the
commits of any run.

## What the model found

- The redaction writer and the repository's description ("removed across write boundaries") disagree
  with `Redact` on values whose end can start a value. A single kept value is streamed faithfully if
  and only if it has no border (`StreamExactSingle`); several may overlap only where a longer value
  that begins alike makes the writer wait (`FaithfulBounds`, `ShieldedOverlapIsHarmless`). For every profile the generator can draw a secret
  that a command, printing it in one piece, sends through in the clear (`DrawnSecretLeaks`). With several
  values, a value containing a bracket can meet an inserted marker (`BracketsBreakStreaming`).
- A value that can be read inside the word `REDACTED`, such as `RED` (`MarkerLettersLeak`), can never
  be hidden; without such values and without brackets everything is hidden (`RedactHidesExactly`).
- An untampered audit log is rejected when two consecutive events share a second and the trimmed
  fraction of the first is a proper prefix of that of the second (`ClockOrderAccepted`), for example
  when the first falls on a whole second (`WholeSecondMisorders`, `WholeSecondRejected`); two creates in
  a new vault are enough (`UntamperedLogRejected`). Section 5.1 of RFC 3339 makes equal fraction width a
  condition for sorting such texts; the code trims the width.
- Tampering without the key goes unseen only where it cuts off the newest rows (`OnlyCutShort`).
- Revoking does not compare revisions. Recorded versions are the last ones at every moment of a run if
  and only if no revoke commits after a rotation of the same secret that committed since the revoke
  began (`AlwaysCurrentExactly`). The interleaving that breaks this works on
  every secret whose recorded version is its last (`StaleRevokeSticks`); with nothing else under way,
  from then on no continuation rotates the secret, makes it resolve or creates it anew (`StuckForever`,
  `StaleRevokeForever`).
- Rotating does compare revisions, but a revoke that read revision k - 1 writes revision k again. A
  rotation that had read revision k then commits over a revoke it never saw
  (`RevokeOverwrittenUnseen`). A committed rotation finds the row it read if and only if the metadata
  last written is still the metadata read, and only revokes can have come in between
  (`RotationFindsRowExactly`).
- Revoking and running accept names that were never validated. A name is determined by its token if and
  only if no part of it holds a zero byte (`TokenDeterminesExactly`); stored names never do, so none is
  hit by another (`LookupAgreesWithScan`).

## Idealisations

A byte of text is a `char` (the random bytes of the generator are numbers from 0 to 255). Keys,
authenticators and sealed boxes are terms, so distinct inputs never collide and a box opens exactly
under its key and associated data; nonces play no part. An authenticator is 32 symbolic octets of its
key and message, and lookup tokens are compared as such, without their base64 rendering. JSON texts
are the documents they encode. Identifiers and times drawn by an operation are parameters (`Draws`);
nothing is assumed about them except in lemmas that say so (`FreshDraws`, `Lucky`). Instants are UTC
with years up to 9999; every month has 31 days, which only adds instants. Rows with equal stamps keep
the order of insertion; no theorem about acceptance relies on it.

## Model

| member | source | states |
|---|---|---|
| Redaction.Redact | internal/redaction/redaction.go:12-25 | the loop of replacement passes is `RedactKept` of the values of at least three bytes, in list order, for the empty text too |
| Redaction.OneValueReplaced | internal/redaction/redaction.go:10-22 | a value redacted by itself is the bracketed word if it has three bytes or more, and otherwise stays |
| Redaction.ListOrder | internal/redaction/redaction.go:17-22 | redacting by a list is redacting by its first part, then by the rest |
| Redaction.ReplaceDistributes | internal/redaction/redaction.go:21 | leftmost replacement distributes over every cut that splits no occurrence |
| Redaction.RedactDistributes | internal/redaction/redaction.go:96-102 | all passes together distribute over such a cut, for bracket-free values or a single value |
| Redaction.PassAddsNone | internal/redaction/redaction.go:17-22 | a pass that inserts markers creates no occurrence of another bracket-free value outside the marker's word |
| Redaction.PassRemovesAll | internal/redaction/redaction.go:21 | a pass leaves no occurrence of its own value |
| Redaction.RedactLeaksNone | internal/redaction/redaction.go:12-25 | the redacted text contains none of the kept values, whatever their order, overlap or nesting |
| Redaction.RedactHidesExactly | internal/redaction/redaction.go:10-25 | bracket-free values are hidden in every text if and only if none is a substring of the marker's word |
| Redaction.UnredactableLeaks | internal/redaction/redaction.go:10-25 | a value inside the marker's word is still there when it is the whole text |
| Redaction.MarkerLettersLeak | internal/redaction/redaction.go:10-25 | `RED` is such a value: redacting it alone leaves it in the text |
| RedactionWriter.Writer.constructor | internal/redaction/redaction.go:36-45 | a new writer holds fresh private copies of exactly the values of at least three bytes and an empty buffer |
| RedactionWriter.Writer.Write | internal/redaction/redaction.go:47-60 | a write takes the stream's step: it flushes all but the longest suffix that may start a value, redacted, and reports the whole chunk as written |
| RedactionWriter.Writer.PartialSuffixLength | internal/redaction/redaction.go:62-77 | the nested loops find the longest suffix of the buffer that is a proper prefix of a kept value |
| RedactionWriter.Writer.RedactData | internal/redaction/redaction.go:96-102 | one replacement pass per kept value, in order |
| RedactionWriter.Writer.Close | internal/redaction/redaction.go:79-94 | closing sends on what is held back, redacted, and overwrites every private copy with zeros |
| RedactionWriter.Zero | internal/securecrypto/securecrypto.go:115-119 | every element of the buffer is overwritten with zero |
| RedactionWriter.HoldExtends | internal/redaction/redaction.go:64-75 | scanning one more value for a longer match keeps the found length the longest one |
| RedactionTheorems.HoldForgets | internal/redaction/redaction.go:62-77 | what will be held back depends only on what is held back now and the new bytes |
| RedactionTheorems.PendingIsLongest | internal/redaction/redaction.go:47-77 | after any writes the buffer is the longest suffix of the whole input that is a proper prefix of a kept value, however the input was cut |
| RedactionTheorems.PendingIsShort | internal/redaction/redaction.go:47-77 | the buffer is always shorter than some kept value, or empty |
| RedactionTheorems.FlushedReassembles | internal/redaction/redaction.go:47-60 | the raw flushed segments followed by the buffer are the input, nothing lost, repeated or reordered |
| RedactionTheorems.CutIsUnsplit | internal/redaction/redaction.go:51 | the cut before the held-back bytes splits no occurrence of a value whose overlaps are all shielded, whatever follows |
| RedactionTheorems.SentIsRedacted | internal/redaction/redaction.go:47-60 | what has been sent on is the redaction of the input up to the held-back tail |
| RedactionTheorems.StreamIsRedact | internal/redaction/redaction.go:47-102 | every cutting of every input into writes, then a close, emits the redaction of the whole input when wherever the end of a value starts another the writer is still holding both back (the overlap is shielded), in particular when no end of a value starts one (for bracket-free values or a single one; where values may contain each other, this is asked of the live ones) |
| RedactionTheorems.StreamExact | internal/redaction/redaction.go:47-102 | for bracket-free values none of which contains another, streaming is faithful on all inputs and cuttings if and only if no end of a value can start a value |
| RedactionTheorems.StreamExactLive | internal/redaction/redaction.go:47-102 | for bracket-free values outside the marker's word, none of which starts another but which may contain each other, faithful if and only if no end of a live value can start a kept value |
| RedactionTheorems.FaithfulBounds | internal/redaction/redaction.go:47-102 | for any bracket-free values outside the marker's word, also where one starts another: faithful if every overlap of a live value is shielded; not faithful if an overlapping live value starts no other, or if an unshielded overlap has nothing else to match |
| RedactionTheorems.ExposedLeaks | internal/redaction/redaction.go:51-58 | the text in which an unshielded overlap has nothing else to match, written in one piece and closed, passes through unredacted |
| RedactionTheorems.ShieldedOverlapIsHarmless | internal/redaction/redaction.go:62-77 | three values, two of which overlap, that are streamed faithfully |
| RedactionLive.LiveRedacts | internal/redaction/redaction.go:96-102 | a value that contains an earlier one never matches, so redacting by the live values alone gives the same text |
| RedactionTheorems.StreamExactSingle | internal/redaction/redaction.go:47-77 | for one value, faithful if and only if it has no border; a bordered value written alone comes out in the clear |
| RedactionTheorems.OverlapPassesThrough | internal/redaction/redaction.go:51-58 | a value whose end can start a value, written in one piece and closed, passes through unredacted |
| RedactionTheorems.StreamHides | internal/redaction/redaction.go:47-102 | under the condition of `StreamIsRedact` the whole streamed output contains no kept value that is bracket-free and not a substring of the marker's word |
| RedactionTheorems.BracketsBreakStreaming | internal/redaction/redaction.go:96-102 | two values without overlap, one with a bracket, for which streaming and one-shot redaction differ |
| RedactionTheorems.RedactOutput | internal/broker/broker.go:274-283 | a command's output, piece by piece through a writer closed at the end, is the streamed output |
| Generator.Limit | internal/generator/generator.go:44 | the acceptance limit is the greatest multiple of the alphabet size that bytes can reach |
| Generator.Generate | internal/generator/generator.go:37-63 | the secret is the first letters of the random stream's acceptable bytes, found in exactly the batches used and no fewer; an unknown profile or a failing source is an error; reported are the profile asked for, its alphabet and length, and as strength the greatest k with 2^k at most the number of secrets of that length |
| Generator.Sample | internal/generator/generator.go:42-62 | the outer loop over batches, for any usable profile, and the strength it reports |
| Generator.Fill | internal/generator/generator.go:50-59 | the inner loop appends the letters of one batch up to the end of the secret |
| Generator.HelpfulBatchesFinish | internal/generator/generator.go:46-60 | k batches that each hold an acceptable byte yield at least k letters |
| Generator.FinishesWithinLength | internal/generator/generator.go:46-60 | when every batch holds an acceptable byte, a secret of length L takes at most L batches and L batches are enough |
| Generator.StrengthIsGreatest | internal/generator/generator.go:61 | the strength computed is the greatest k with 2^k at most the number of secrets |
| Generator.MeasureIsOne | internal/generator/generator.go:61 | no other number is |
| Generator.ProfilesAreListed | internal/generator/generator.go:16-35 | exactly four names are known, the empty one stands for the default; their lengths, the sizes of their alphabets and the characters in them |
| Generator.ProfilesAreStrong | internal/generator/generator.go:16-24 | every profile reports at least 200 bits |
| GeneratorUniform.BytesForCount | internal/generator/generator.go:44-54 | each letter stands for exactly 256 / n accepted bytes |
| GeneratorUniform.SourcesAreThose | internal/generator/generator.go:50-55 | the constructed set of byte sequences is exactly those that yield the secret |
| GeneratorUniform.SamplingIsUniform | internal/generator/generator.go:43-59 | every secret of length L over the alphabet arises from exactly (256 / n)^L sequences of accepted bytes |
| GeneratorStreams.StreamsAreUniform | internal/generator/generator.go:43-59 | with rejection: of all random streams of N bytes, the number whose letters start with a secret of length L is C(N, L) whatever the secret, where C(N, 0) = 256^N, C(0, L) = 0, and C(N, L) = (256 mod n) C(N - 1, L) + (256 div n) C(N - 1, L - 1) |
| GeneratorStreams.GeneratesExactly | internal/generator/generator.go:37-63 | a secret drawn from batches is the given one exactly if the bytes of the batches form such a stream |
| GeneratorUniform.ProfilesAreDistinct | internal/generator/generator.go:16-24 | no profile lists a letter twice, so uniformity holds for each |
| GeneratedSecrets.GeneratedSecretsAreHidden | internal/generator/generator.go:16-24 | generated secrets need no condition: the one-shot redactor hides every one of them in every text |
| GeneratedSecrets.GeneratedStreamExact | internal/redaction/redaction.go:47-102 | for secrets of one profile, streaming is faithful on all inputs and cuttings if and only if no end of one starts one |
| GeneratedSecrets.MixedStreamIsRedact | internal/broker/broker.go:264-283 | for secrets of any mix of profiles, streaming is faithful and hides every secret if every overlap of a live secret is shielded |
| GeneratedSecrets.MixedStreamExact | internal/broker/broker.go:264-283 | and only if, for mixes in which no secret lies inside another |
| GeneratedSecrets.MixedStreamExactLive | internal/broker/broker.go:264-283 | and only if, in terms of live secrets, for mixes in which no secret starts another |
| GeneratedSecrets.DrawnSecretLeaks | internal/redaction/redaction.go:47-77 | for every profile a secret the generator can draw that, written in one piece and closed, comes out in the clear though one-shot redaction hides it |
| GeneratedRuns.ResolvedWasGenerated | internal/vault/store.go:568-601 | in every run whose create and rotate requests carry generated values, every name that resolves gives a generated value |
| GeneratedRuns.RunHidesItsSecrets | internal/broker/broker.go:249-283 | in such a run the one-shot redaction of a command's output holds none of the secrets handed to it, nor does the streamed output if every overlap of a live secret is shielded |
| Timestamp.FormatOrder | internal/vault/store.go:856 | formatted instants order as the instants do, except exactly when they share a second and one trimmed fraction is a proper prefix of the other, where the order is reversed |
| Timestamp.FormatInjective | internal/vault/store.go:856 | different instants have different texts |
| Timestamp.FormatLayout | internal/vault/store.go:856 | four digits of the year, two of each other field, the separators of RFC 3339, a fraction only if there is one |
| Timestamp.WholeSecondMisorders | internal/vault/store.go:856 | the text of a whole second sorts after the text of every later instant of that second |
| SecureCrypto.Open | internal/securecrypto/securecrypto.go:91-104 | a box opens exactly under its key and associated data, to what was sealed |
| SecureCrypto.ComputeLookupToken | internal/securecrypto/securecrypto.go:106-113 | feeding each value behind a zero byte computes the token of the framed tuple |
| Framing.FrameInjective | internal/securecrypto/securecrypto.go:108-111 | a tuple of zero-free parts frames like another of the same size only if they are equal, whatever the other contains |
| Framing.TokenInjective | internal/securecrypto/securecrypto.go:106-113 | equal tokens under one key mean equal tuples, under the same condition |
| Framing.ZeroBytesCollide | internal/securecrypto/securecrypto.go:108-111 | two different tuples with zero bytes that have the same token |
| Framing.FrameDeterminesExactly | internal/securecrypto/securecrypto.go:108-111 | behind zero-free fixed first parts, a tuple with at least two more parts is determined by its frame if and only if all parts are zero-free |
| Invariant.TokenDeterminesExactly | internal/vault/store.go:888-893 | a name is determined by its lookup token if and only if none of its three parts holds a zero byte |
| Framing.SecretAADInjective | internal/vault/store.go:885-887 | the associated data of values determines id and version, for arbitrary ids |
| Framing.ObjectAADInjective | internal/vault/store.go:882-884 | the associated data of metadata determines kind, id and revision, for arbitrary ids |
| Framing.AADFamiliesDisjoint | internal/vault/store.go:881-887 | the three families of associated data never coincide |
| Audit.ListAudit | internal/vault/store.go:724-771 | the listing succeeds exactly when every row in stamp order links to and authenticates after the one before; it then returns the last events, newest first, with the limit normalised; otherwise it reports what is wrong with the first bad row |
| Audit.ReverseInPlace | internal/vault/store.go:767-769 | swapping from both ends reverses the slice in place |
| Audit.AcceptedExactly | internal/vault/store.go:733-759 | with distinct ids and stamps, the table built by any appends is accepted if and only if the stamps were appended in strictly increasing text order |
| Audit.IncreasingIsAccepted | internal/vault/store.go:832-858 | appended in increasing stamp order, the listing returns exactly the appended events in order |
| Audit.ClockOrderAccepted | internal/vault/store.go:840-856 | with a clock that always moves forward, the log is rejected exactly when two consecutive events have the misordered fractions |
| Audit.WholeSecondRejected | internal/vault/store.go:733-759 | two events in time order, the first on a whole second and the other within it, whose untouched table is rejected |
| Audit.SameHeadSameHistory | internal/vault/store.go:745-753 | two accepted chains with the same last signature have the same number of rows and agree row by row on event and signature |
| Audit.SameHeadSameEvents | internal/vault/store.go:754-759 | and so list the same events |
| Audit.OnlyCutShort | internal/vault/store.go:741-758 | an accepted table all of whose signatures occur in an accepted history is that history, row by row, with at most its newest rows cut off |
| Audit.AlteredIsRejected | internal/vault/store.go:746-753 | a table with one event altered is rejected for authentication at that row |
| Audit.RemovedIsRejected | internal/vault/store.go:746-748 | a table with a row taken out before the last is rejected as inconsistent at the row after it |
| PlainVault.RotationsCountUp | internal/vault/store.go:433-449 | in a legal history the rotations of a name store versions 2, 3, .., n in order |
| Vault.WrapperOpensExactly | internal/vault/store.go:273-300 | a password wrapper opens exactly under its password and vault id, to the data key; an empty or overlong attempt is an invalid request, any other a wrong password |
| Vault.DefaultsAreAccepted | internal/securecrypto/securecrypto.go:28-43 | the default parameters are accepted with any password and salt that are |
| Vault.KeysAreSeparate | internal/vault/store.go:308-327 | the keys of a vault differ from each other and from those of any vault with another data key |
| Vault.TokenLayout | internal/vault/store.go:888-893 | a token authenticates the kind and the project, environment and name, in that order, each behind a zero byte |
| Vault.TokensOfKindsDiffer | internal/vault/store.go:888-893 | no secret shares a token with an action |
| Invariant.LookupIsScan | internal/vault/store.go:790-813 | lookup by token finds exactly the row that a scan of decrypted names would |
| Preservation.RunKeeps | internal/vault/store.go:359-858 | every run of interleaved requests, locks and unlocks keeps the whole invariant |
| Preservation.CreateStaged | internal/vault/store.go:388-410 | the statements of a create keep tables, replayed map and uniqueness in step |
| Preservation.RotateStaged | internal/vault/store.go:463-482 | the statements of a rotation do, when they go through |
| Preservation.RevokeStaged | internal/vault/store.go:516-521 | the statements of a revoke do, even with a stale snapshot |
| Preservation.ActionStaged | internal/vault/store.go:643-653 | inserting or overwriting an action does, and leaves it the last one put under its name |
| Interleavings.VersionRowsNumbered | internal/vault/store.go:463-471 | in every interleaving the rows of a secret are numbered exactly 1..n with n its creates and rotations, none is pending, and only row n can be active |
| Interleavings.MetadataAgrees | internal/vault/store.go:443-521 | metadata says active exactly when some row is active, and then names that row |
| Interleavings.ResolveIsReplay | internal/vault/store.go:568-601 | at every moment resolving a name gives the value of its last committed create or rotation, or nothing if it was revoked last or never created |
| Interleavings.ResolveInTwoReads | internal/vault/store.go:576-598 | a name's row and its active version are read separately; whatever happens in between, the answer is the plain map's at the second read |
| Interleavings.CommitsAreLegal | internal/vault/store.go:359-529 | the commits of every interleaving are a legal run of the plain map, and the rotations of a name count up |
| Interleavings.RotationCommitsExactly | internal/vault/store.go:463-482 | a rotation commits if and only if the version it read is the last one and the row still has the revision it read |
| Interleavings.OneRotationWins | internal/vault/store.go:474-482 | of two rotations that read the same metadata, once one has committed the other never does, whatever happens in between |
| Interleavings.StaleRotationFails | internal/vault/store.go:463-467 | a rotation that read an older version cannot commit |
| Interleavings.RevokeRecordsWhatItRead | internal/vault/store.go:502-521 | a committed revoke records the version it had read and revokes the name in the replayed map |
| Interleavings.LoneRotationCommitsExactly | internal/vault/store.go:423-490 | a rotation with nothing in between commits if and only if the recorded version is the last one |
| Interleavings.SessionsShareKeys | internal/vault/store.go:248-327 | every session works with the same four keys; a locked vault opens exactly under its password, an open one ignores the password |
| Interleavings.ObjectBoxesOpen | internal/vault/store.go:381 | every stored metadata box opens under its row's kind, id and revision |
| Interleavings.ValueBoxesOpen | internal/vault/store.go:589-592 | every stored value box opens under its secret and version number |
| Interleavings.LookupAgreesWithScan | internal/vault/store.go:537-563 | at every moment token lookup and a full scan find the same row, and names within a kind are unique |
| Interleavings.ActionsFoundWerePut | internal/vault/store.go:668-685 | every action ever answered was put under the requested name |
| Interleavings.ActionFoundIsLatest | internal/vault/store.go:815-830 | the second read gives the action last put under the name by then, or fails because the revision moved |
| Interleavings.AuditOfRun | internal/vault/store.go:832-858 | in every interleaving there is one audit row per commit, in commit order |
| Interleavings.AuditAcceptedExactly | internal/vault/store.go:733-759 | with distinct stamps, that log is accepted if and only if the stamps increased in commit order |
| LogRuns.UntamperedLogRejected | internal/vault/store.go:733-759 | two creates in a new vault, committed in time order within one second of which the first is logged at its start, after which the listing rejects the log |
| RecordedVersions.AlwaysCurrentExactly | internal/vault/store.go:498-519 | recorded versions are the last ones at every moment of a run if and only if no revoke commits after a rotation of its secret that committed since the revoke began |
| RecordedVersions.RevokeRecordsLastExactly | internal/vault/store.go:498-519 | a revoke begun on current records leaves the last version recorded if and only if no rotation of its secret was committed since it began |
| RecordedVersions.UndisturbedStaysCurrent | internal/vault/store.go:498-519 | in particular recorded versions are the last ones at the end of a run without such a revoke |
| RecordedVersions.UndisturbedRotationsCommit | internal/vault/store.go:423-490 | in such runs a rotation with nothing in between always commits |
| RecordedVersions.StuckForever | internal/vault/store.go:463-467 | a secret whose recorded version is behind stays so through every continuation and never resolves again |
| RecordedVersions.StuckExactly | internal/vault/store.go:502-521 | with nothing under way, a secret is in that state exactly if its recorded version is not its last |
| RecordedVersions.StaleRevokeSticks | internal/vault/store.go:502-521 | the interleaving of a revoke and a rotation that leads there, for every secret whose recorded version is its last |
| RecordedVersions.StaleRevokeForever | internal/vault/store.go:463-521 | after that interleaving the name never resolves again, whatever follows |
| RecordedVersions.AdvanceEffect | internal/vault/store.go:359-666 | a commit step leaves all secrets alone or writes its own one, and a rotation only if it read the last version |
| PlainVault.VersionSameExactly | internal/vault/store.go:433-449 | between two moments of a legal history a stored name's version never falls, and stays the same if and only if no rotation of it was committed |
| Races.StoredMetaIsLast | internal/vault/store.go:376-521 | at every moment of every interleaving the stored metadata of a secret is that of the last commit that wrote it |
| Races.RotationFindsRowExactly | internal/vault/store.go:474-482 | since a committed rotation began, only revokes wrote its secret; it finds the row it read if and only if the metadata last written is the metadata read, hence if no revoke committed in between, and only if when revokes carry other times |
| Races.BlindRotationCommits | internal/vault/store.go:474-519 | a revoke and a rotation that read the row one revision apart both commit, the rotation over a row it never read |
| Races.RevokeOverwrittenUnseen | internal/vault/store.go:474-519 | the interleaving, from any idle vault and secret: the name stops resolving when the revoke commits and resolves again to the second rotation's value |
| Races.CreatedIsReady | internal/vault/store.go:359-421 | creating a secret in a new vault leads to a state where that interleaving applies |
| Serial.SerialRefinesPlain | internal/vault/store.go:248-601 | over any run of single requests, locks and unlocks the store is locked exactly when the plain vault is, and every name resolves to the plain vault's value |
| Serial.AnswersArePlain | internal/vault/store.go:359-529 | each request for a secret is answered with the plain vault's error or version and state, and a refused one changes no table |
| Serial.LockedRefuses | internal/vault/store.go:860-872 | on a locked vault each request of the model (create, rotate, revoke, put, get, record) fails and changes nothing but the answer; the listings and resolving are refused by their own rows below |
| Serial.RecordedVersionsAreLast | internal/vault/store.go:531-566 | in such runs recorded versions and states are those of the plain vault, revoked or not |
| Store.PendingThenActive | internal/vault/store.go:463-473 | inserting as pending, retiring the active row and activating by version id comes to retiring the active row and adding the new one |
| Store.Initialize | internal/vault/store.go:57-149 | succeeds exactly on a password of 1 to 4096 bytes, a salt of 16 and parameters of at least 19 MiB, 2 passes and 1 lane; the store is then new, empty, unlocked, and its wrapper seals its data key under the password |
| Store.Store.Unlock | internal/vault/store.go:248-260 | an open store is left alone whatever the password; a locked one opens to the keys of its data key or reports why not |
| Store.Store.InstallKeys | internal/vault/store.go:308-327 | the data key and the three keys expanded from it |
| Store.Store.VerifyPassword | internal/vault/store.go:264-271 | succeeds exactly when the wrapper opens, locked or not |
| Store.Store.Lock | internal/vault/store.go:329-340 | the keys are gone |
| Store.Store.FindSecretMetadata | internal/vault/store.go:790-813 | metadata and revision of the row with the name's token, or the error |
| Store.Store.CurrentVersion | internal/vault/store.go:587-589 | the greatest active version number, if any |
| Store.Store.AddVersion | internal/vault/store.go:463-473 | the three version statements of a rotation, or a refused insert |
| Store.Store.SwapMetadata | internal/vault/store.go:474-482 | the update takes place exactly when the row has the expected revision |
| Store.Store.AppendAudit | internal/vault/store.go:832-858 | the row added reads as the event given, with an id or a time drawn only where none was given; it links to the row with the greatest stamp, and is refused if the id is taken |
| Store.Store.CreateSecret | internal/vault/store.go:359-421 | answer and tables are those of the create transaction on the old tables, unchanged on any error; the fields of the answer |
| Store.Store.RotateSecret | internal/vault/store.go:423-490 | answer and tables are those of the rotation transaction on the old tables, rolled back on any error; the answer has the profile and strength given and otherwise the fields found |
| Store.Store.RevokeSecret | internal/vault/store.go:492-529 | answer and tables are those of the revoke transaction on the old tables, rolled back on any error; of the fields found only state and time of update change |
| Store.Store.ListSecrets | internal/vault/store.go:531-566 | locked, or one entry for each row of the scope, sorted by name; an error exactly when some box does not open |
| Store.Store.ResolveSecrets | internal/vault/store.go:568-601 | locked, or a value for every mapping, resolved in the scope's project and environment, or an error of one of them and no values |
| Store.Store.PutAction | internal/vault/store.go:603-666 | answer and tables are those of inserting or overwriting the action, keeping its id and creation time; every field the caller gives is in the answer |
| Store.Store.GetAction | internal/vault/store.go:668-685 | the action in the row with the name's token, or the error |
| Store.Store.ListAudit | internal/vault/store.go:724-771 | the listing of the store's own rows, or locked |
| Store.Store.RecordAudit | internal/vault/store.go:773-788 | answer and tables are those of appending the event, which the new row reads as given |
| Broker.Broker.Handle | internal/broker/broker.go:102-196 | handling a create, rotation, revoke, action put, action look-up or audit record leaves the tables and gives the answer that its read step and commit step give with nothing in between |
| Broker.HandleGenerated | internal/broker/broker.go:102-140 | a bad name, an unknown profile or a failing random source stops a create or rotate before the vault; otherwise the vault is asked to store a value drawn from the random bytes, under the names given, with its profile's name and real strength |
| Broker.ConfigurationIsComplete | internal/vault/store.go:603-666 | putting an action in one go is its read, second read and commit in sequence |
| Broker.ListingAgrees | internal/vault/store.go:531-566 | in every interleaving a listing shows each name of the scope exactly once; an entry is active exactly if its name resolves, and then has the version resolved |
| Broker.ListingOpens | internal/vault/store.go:551-560 | no listing of a reachable vault fails on a box |
| Broker.ActionNamedIsLatest | internal/vault/store.go:668-685 | with nothing in between, a lookup gives the action last put under the name, or not found if none was |
| Broker.MappingsResolveAsPlain | internal/vault/store.go:568-601 | with nothing in between, resolving a run's mappings gives the current value of each name in the scope's project and environment, or fails as a whole exactly when some mapped name is revoked or was never created |
| Broker.MappingsResolveOverTime | internal/vault/store.go:575-600 | with each name's row and version read at moments of their own while others commit, each value is the current one when its version was read, and the run fails exactly when some name was not yet created or not in use at its moments |
| Answers.CreateStoresRequest | internal/vault/store.go:359-421 | at any moment, a created secret whose names hold no zero byte has the names, profile and strength of the request, version 1 and the time drawn, in the answer, when found, in every listing of its scope; it resolves to the value given; other names and actions are as before; one event says so |
| Answers.RotateStoresRequest | internal/vault/store.go:423-490 | likewise for a rotation: profile, strength and value of the request, the next version, everything else as found |
| Answers.RevokeKeepsTheRest | internal/vault/store.go:492-529 | likewise for a revoke: only state and time of update change, and the name no longer resolves |
| Answers.PutIsFound | internal/vault/store.go:603-685 | an action just put, with names that hold no zero byte, is found under its own name with every field of the request; a new one has the id and time drawn, a replaced one keeps both; other actions and all secrets are as before; one event says so |
| Answers.RecordedAsGiven | internal/vault/store.go:773-858 | an event is logged with actor, operation, object, outcome and detail as given, and only an id or a time that was missing drawn |
| Answers.LoggedIsListed | internal/vault/store.go:724-771 | an accepted listing then shows the event, first if no stamp is later; a limit outside 1 to 1000 counts as 100 |
| Answers.CreateAnswersExactly | internal/vault/store.go:376-421 | on an open vault a create fails as already existing exactly if the name or id is taken, else on a repeated version or event id, and then changes nothing |
| Answers.RotateAnswersExactly | internal/vault/store.go:429-490 | a rotation fails as not found exactly if the name was never created, else exactly if the recorded version is not the last or a drawn id repeats |
| Answers.RevokeAnswersExactly | internal/vault/store.go:498-529 | a revoke fails exactly if the name was never created or the event id repeats |
| Answers.PutAnswersExactly | internal/vault/store.go:609-666 | putting an action fails exactly on an empty required field, a repeated event id, or a new action whose drawn id is taken |
| Answers.RecordAnswersExactly | internal/vault/store.go:832-858 | recording fails exactly if the event's id is taken |
| Answers.LosingRotationAnswer | internal/vault/store.go:463-482 | in an interleaving, a rotation that does not commit is answered by the constraint if a version was stored since it read, and otherwise as changed concurrently |
| Answers.CreateAddsFirstRow | internal/vault/store.go:407-411 | creating adds exactly row 1, in use, which opens to the value |
| Answers.RotateAddsNextRow | internal/vault/store.go:463-473 | rotating marks the row in use as retired, adds exactly the next row, in use, which opens to the value, and leaves the others |
| Answers.RevokeMarksRow | internal/vault/store.go:516-518 | revoking marks the row in use as revoked and leaves the others |
| Answers.FirstRevision | internal/vault/store.go:399-401 | a created row has revision 1 |
| Answers.NextRevision | internal/vault/store.go:474-476 | a rotation adds one to the revision |
| Answers.RevokedRevision | internal/vault/store.go:504-519 | so does a revoke |
| Answers.NamesAccepted | internal/broker/broker.go:25 | the accepted names are those of the pattern, both classes written out |
| Answers.UnsafeNamesRefused | internal/broker/broker.go:334-348 | a create, rotation or action put with any name part outside the pattern, or an action without executable, is refused as invalid, locked or not; revokes, look-ups and records never are |
| Answers.ListingIsFound | internal/vault/store.go:531-566 | at every moment whatever a listing shows lies in the scope asked for and is found under its own name as shown |
| Answers.CreatedIsHandedOver | internal/vault/store.go:568-601 | right after a create, resolving a mapping of that name in that project and environment answers exactly the value given |
| Answers.RotatedIsHandedOver | internal/vault/store.go:568-601 | right after a rotation, exactly the new value |
| Answers.RevokedIsWithheld | internal/vault/store.go:568-601 | right after a revoke, exactly not found |
| Answers.NeverCreatedNotFound | internal/vault/store.go:568-601 | a mapped name that was never created in exactly that project and environment makes resolving fail as not found |
| Provenance.CommitsFulfilRequests | internal/vault/store.go:359-858 | in every interleaving each commit does, field by field, what one request asked that began before it on the same thread, and its event names that operation, who asked and the object |
| Provenance.NoRequestTwice | internal/vault/store.go:359-858 | and no two commits carry out the same request |
| Provenance.IdentityNeverChanges | internal/vault/store.go:376-521 | in every interleaving all metadata ever committed under one name has one id and one time of creation |
| GeneratedRuns.AskedWasGenerated | internal/broker/broker.go:115-139 | what the broker asks the vault to store was generated |
| GeneratedRuns.GeneratedIsStored | internal/broker/broker.go:115-139 | a generated secret is stored under the names and profile asked for with its real strength, and a run of its scope is handed exactly the letters drawn |

## Left out

- XChaCha20-Poly1305, Argon2id, HKDF, HMAC: library code; the ideal forms described above stand for them, so collisions, nonces and memory residue are not captured.
- Store.Store.Lock: does not model overwriting the key bytes before dropping them, since keys are terms here; only the loss of the keys is stated.
- Store.Initialize: does not model file creation and clean-up, the schema version and the metadata rows.
- Broker.Broker.Handle: does not dispatch the listings, `run`, the audit listing and the session requests; those are methods of `Store` and steps of the machine. It takes values as given; `HandleGenerated` generates them.
- SQLite: DSN, pragmas, file modes and WAL; statements are atomic steps inside a transaction and the single connection makes a transaction atomic.
- Failures of the database, the random source (except in `Generate`), contexts and JSON coding inside the vault operations.
- Timestamp columns of objects and versions: written, never read back.
- ListActions: the same loop as `ListSecrets` over the other kind of row.
- Sockets, pipes, JSON frames, process execution, power inhibitors, path discovery, command line and prompts: only the fact that handlers run concurrently is kept.
- Broker requests init, unlock, lock, status and the approval password of `action.configure`: sessions are steps of the machine, and the password check is modelled by `VerifyPassword` alone.
- validateAction: of its checks only names and the executable are modelled, not the output policy and the mapping names.
- Redactor: destination writers that fail, writes after `Close`, and the mutex; the UTF-8 replacement in `eventWriter`.
- RedactionTheorems.StreamExactLive: its equivalence does not cover lists in which one value starts another. For those `FaithfulBounds` proves a sufficient and a necessary condition; between them lie lists whose overlapping live values all start others and whose unshielded overlaps also hold an occurrence of another value.
- RedactionTheorems.FaithfulBounds: asks for bracket-free values outside the marker's word; for others the sufficient condition of `StreamIsRedact` and the counterexample with a bracket are proved.
- Strict growth of revisions under racing revokes or action updates: not a property of the code, since those updates do not compare revisions.
- Generator.StrengthIsGreatest: an integer statement in place of floating-point `math.Log2`; the strengths declared in the profile table are overwritten by the code and nothing is stated about them.
- Serial.SerialRefinesPlain: assumes that drawn identifiers are new to the tables and that callers leave a new secret's id to be drawn, as the broker does.
