# Verified models of the Incus plugin and the Codex client

The project models the parts of the repository whose correctness depends on several functions, several
processes or a whole run of events, and proves what they promise:

- the `incus.cfg` / `incus.json` pair of the Incus plugin: the shell-file parser, the line-preserving
  rewriter and its quoter (`Text`, `Settings`, `ShellConfig`, `ShellValues`, `ShellRewrite`,
  `ShellRoundTrip`, `ShellQuoting`, `ShellFrame`), the in-memory merge (`ConfigMerge`), the two-file transaction over a file
  system whose every operation may fail (`FileSystems`, `ConfigTransaction`), the service with its
  background sync (`ConfigSync`) and the lock file (`CfgLock`);
- the serialised JSON registry and the image registry on top of it (`JsonStore`, `ImageRegistry`);
- the build queue, the life of one build and its log (`BuildScheduler`, `BuildRun`, `BuildLog`);
- the timeline reducer and the call table of the app-server client (`Timeline`, `RpcTable`);
- the poller (`Polling`) and the package search caches (`InsertionMaps`, `PackageSearch`);
- the two one-pass parsers, of Markdown blocks and of apt indexes (`MarkdownBlocks`, `AptIndex`).

Code that computes a value is a function, with its properties in lemmas. Code that loops or updates fields
is a method or a class, proved against a function of the old state. Code whose steps interleave with other
processes, timers or messages is a state machine `Exec(state, step)` with `Run(steps)`; a step that cannot
happen changes nothing, so every list of steps is a run and the theorems speak about all of them. Where a
class of the source owns such a state, a class here has its fields and each method is proved to take the
step of the machine; what a step leads to is said again without naming the machine's own functions. The
parsers are also described from the outside, by what they make of text as people write it. Failures of the outside world (a write, a fetch, a child process, a socket) are
separate steps or come from an arbitrary oracle; the clock is part of the state.

## What does not hold

Some promises of the code or its comments are not kept for every input. The members named with each
of them exhibit a failure and say when the promise is kept.

- A string value with a single quote is written so that a shell reads it correctly, but the plugin's own
  parser does not undo the escape. It reads a value back exactly when it has no quote
  (`ShellConfig.QuotedReadsBack`); with one it never does, whatever the file (`ShellConfig.QuoteNeverReadsBack`),
  so the next background sync replaces the value just saved (`ConfigMerge.QuotedTextIsLost`). The merge in
  memory equals the re-read file exactly for clean patches (`ConfigMerge.MergeReadsBackIffClean`): no quote or
  newline in a text, and no property set to undefined that the file defines.
- The comment behind such a value can be lost by the next update: exactly when the text has an odd number of
  quotes or a `#` behind an odd number of them, if it has no double quote (`ShellFrame.CommentFoundIff`,
  `ShellFrame.ClosesCleanlyIff`, `ShellFrame.OneQuoteLosesComment`).
- An update with values without newlines is idempotent exactly when no copied line of the file ends with a
  carriage return before the last line of the result, and every comment on a line it writes is found again
  behind the new value (`ShellFrame.UpdateIdempotentIff`). The empty update fails for a file with two carriage
  returns at a line's end (`ShellFrame.UpdateNotIdempotent`), and an update to a value whose quoted text does
  not close cleanly fails for a line with a comment (`ShellFrame.QuoteNotIdempotent`). For values without quotes only the carriage returns
  count (`ShellFrame.UpdateIdempotent`, `ShellFrame.UpdateIdempotentWithoutCr`).
- An `incus.json` that holds the JSON value `null` is never brought into agreement, because the comparison
  throws, exactly when the shell file sets something (`ConfigSync.SyncConvergesIff`,
  `ConfigSync.NullNeverConverges`).
- A crash inside an update leaves the update's lock file behind, and the start of the service
  makes a single attempt at the lock. The files then agree after the start exactly when the lock was already
  stale, or the crash fell outside the two installs, or the update changed nothing (`ConfigSync.CrashThenBoot`,
  for clean updates of files that agreed). Every update that changes something can so leave the new shell file
  beside the old document (`ConfigSync.EarlyBoot`, `ConfigSync.EarlyBootExample`).
- When a backup cannot be removed after the commit, `applyConfigUpdate` throws although both new files are in
  place, the value served from memory stays the old one, and a backup stays on the disk
  (`ConfigTransaction.CleanUpErrorExample`); for a clean patch the sync that follows finds nothing to do and
  does not repair it (`ConfigSync.SilentAfterUpdateIffClean`). It happens exactly when every operation up to
  the second install works and one of the removals does not (`ConfigTransaction.WriteConfigPair`).
- A copy that breaks half way can leave part of a backup behind although the rollback succeeds
  (`ConfigTransaction.TornBackupExample`). A rollback without failures leaves nothing else, and nothing at all
  when no copy was torn (`ConfigTransaction.WriteConfigPair`).
- With the second stat and the unlink of a steal as two steps, two calls can hold the lock, neither overdue:
  `CfgLock.SplitStealRun` is such a run from the start. It takes an unlink that removes another file than the
  one the stat saw: in every run without one, one of two holders is overdue (`CfgLock.ExclusionWhileUnlinksHit`),
  and after such an unlink of a live, punctual holder's file both hold (`CfgLock.SplitStealBreaksExclusion`).
  A holder that stays longer than the stale timeout gets company in any case (`CfgLock.OverrunGivesTwoHolders`).
- Rebuilding the master image leaves no image master (`ImageRegistry.RebuildDropsMaster`); a build keeps the
  master exactly when its alias is another one (`ImageRegistry.RebuildKeepsMasterIff`).
- A log whose redacted pieces fill the 16 MiB to the byte loses what follows without the truncation marker, and
  only such a log does (`BuildLog.SilentLossIff`): for instance 257 lines of 65,535 letters each, which arrive
  as pieces of 64 KiB (`BuildLog.SilentLossExample`).
- `trigger` leaves an earlier timer of the poller armed, and arms one beside a task in flight on a hidden page:
  exactly when it is called before stop on a hidden page or while no task is in flight
  (`Polling.TriggerLeavesTimerIff`, `Polling.TriggerLeavesTimer`). Without such a call at most one timer is
  pending (`Polling.OneTimerWhileHarmless`).
- Timeline ids can repeat: exactly when an approval card or a local message is added under an id already shown
  (`Timeline.StepUniqueIff`), for instance when the app-server numbers its requests from the start again
  (`Timeline.IdsCanRepeat`).
- A reasoning delta continues the reasoning text exactly when the last part of the content is a bare string or
  there is none (`Timeline.ReasoningExtendsIff`); an object there becomes text (`Timeline.ReasoningExample`).
- Calls still waiting when the hook is disposed are not settled by the close that follows
  (`RpcTable.CloseSettlesAll`, `RpcTable.DisposalLeavesWaiting`).
- Parsing, printing and parsing Markdown again gives the same blocks exactly when no line of code and no
  paragraph line ends with a carriage return, except the last line of a last paragraph
  (`MarkdownBlocks.RoundTripIff`, `MarkdownBlocks.RoundTripCanFail`).

## Model

| member | source | states |
|---|---|---|
| Settings.ShellNameInjective | unraid-api-plugin-incus/src/config-sync.service.ts:519-545 | Two properties never share a shell variable, so a patched line belongs to one property. |
| Settings.FieldsAreMapped | unraid-api-plugin-incus/src/config-sync.service.ts:230-256 | The 25 compared properties are exactly those with a shell variable. |
| ShellConfig.UnquotedHashIsFirst | unraid-api-plugin-incus/src/config-sync.service.ts:295-308 | The scanner's answer is the first `#` outside quotes under the scanner's quoting rules, and -1 exactly when there is none. |
| ShellConfig.FindUnquotedHash | unraid-api-plugin-incus/src/config-sync.service.ts:295-308 | The loop with its quote and escape variables finds that position. |
| ShellConfig.StripValue | unraid-api-plugin-incus/src/config-sync.service.ts:279-288 | Cutting the comment and the surrounding quotes yields the value specified for a right-hand side. |
| ShellConfig.ParseLine | unraid-api-plugin-incus/src/config-sync.service.ts:274-290 | One line updates the record exactly as its assignment says; blank, comment and keyless lines leave it alone. |
| ShellConfig.ParseShellConfig | unraid-api-plugin-incus/src/config-sync.service.ts:270-293 | The result maps each key to the value of the last line that assigns it. |
| ShellConfig.StoreDefines | unraid-api-plugin-incus/src/config-sync.service.ts:277-290 | After one line a key is defined if it was or the line assigns it; only the assigned key changes. |
| ShellConfig.AssignAllIsSettled | unraid-api-plugin-incus/src/config-sync.service.ts:314-347 | The field-by-field assignments, in any state of the record, produce exactly the properties whose variables are defined, each decoded, and the key's presence bit with the key. |
| ShellConfig.MapShellToTS | unraid-api-plugin-incus/src/config-sync.service.ts:314-347 | The sequence of assignments computes that configuration. |
| ShellConfig.RenderIsAssignment | unraid-api-plugin-incus/src/config-sync.service.ts:575-575 | A rewritten line is read as an assignment to the same key with the quoted text in front of the old comment. |
| ShellConfig.HashOfQuoted | unraid-api-plugin-incus/src/config-sync.service.ts:567-568 | In a quoted text without quotes every `#` is hidden, and the comment behind it is found where it starts. |
| ShellConfig.QuotedReadsBack | unraid-api-plugin-incus/src/config-sync.service.ts:279-288 | What the rewriter wrote is read back as the value exactly when the value has no single quote; then the comment is found too. |
| ShellConfig.QuoteNeverReadsBack | unraid-api-plugin-incus/src/config-sync.service.ts:286-287 | For every value with a single quote, with or without a comment, the value read back differs. |
| ShellValues.FileReads | unraid-api-plugin-incus/src/config-sync.service.ts:270-308 | In every file the last line that assigns a key gives it its value: a bare word, or what stands between single or double quotes, whatever white space is around each part and whatever comment behind; inside double quotes escaped quotes end nothing and their backslashes stay. |
| ShellValues.DoubleQuotedReads | unraid-api-plugin-incus/src/config-sync.service.ts:265-293 | The file KEY="VALUE" of one line, with a comment or without, defines that key alone, as the text between the double quotes. |
| ShellValues.BareReads | unraid-api-plugin-incus/src/config-sync.service.ts:270-293 | The file KEY=word defines that key alone, as the word. |
| ShellValues.OthersReadAsTheyStand | unraid-api-plugin-incus/src/config-sync.service.ts:286-289 | A value without a comment and without a matching pair of quotes around it, a lone quote included, is read as it stands. |
| ShellValues.OtherLinesDefineNothing | unraid-api-plugin-incus/src/config-sync.service.ts:273-277 | Blank lines, comments, and lines with no equals sign or nothing before it define nothing. |
| ShellQuoting.QuotedIsLiteral | unraid-api-plugin-incus/src/config-sync.service.ts:350-352 | For every string, a shell reading the quoted text by sections 2.2.1 and 2.2.2 of the POSIX.1-2017 Shell Command Language gets exactly that string. |
| ShellRewrite.FieldNamed | unraid-api-plugin-incus/src/config-sync.service.ts:557-559 | The property looked up for a shell key is the one whose variable it is. |
| ShellRewrite.TargetIs | unraid-api-plugin-incus/src/config-sync.service.ts:553-561 | A line is rewritten for a property exactly when the parser reads the line as an assignment to its variable. |
| ShellRewrite.RewriteOne | unraid-api-plugin-incus/src/config-sync.service.ts:550-579 | The mapping function returns the specified line and the property it marks as seen. |
| ShellRewrite.TouchedStep | unraid-api-plugin-incus/src/config-sync.service.ts:548-562 | The seen set after each line is the set of patched properties some line so far assigns. |
| ShellRewrite.UpdateShellConfig | unraid-api-plugin-incus/src/config-sync.service.ts:517-591 | The loop over lines with its seen set, and the loop that appends the rest, produce the specified text. |
| ShellRewrite.RewriteOverrides | unraid-api-plugin-incus/src/config-sync.service.ts:550-579 | Rewriting all lines defines the same variables as before; unpatched ones keep their values, patched ones read as their quoted text does. |
| ShellRewrite.AppendedConcat | unraid-api-plugin-incus/src/config-sync.service.ts:581-588 | The new lines stand in the order of the keys. |
| ShellRoundTrip.AppendedReads | unraid-api-plugin-incus/src/config-sync.service.ts:581-588 | Appended lines define exactly the patched variables not yet seen and change no other variable. |
| ShellRoundTrip.RereadVariable | unraid-api-plugin-incus/src/config-sync.service.ts:517-591 | Parsing the rewritten file: a variable is defined if it was or is patched; an unpatched one keeps its value; a patched one reads back as written exactly when its text has no quote. |
| ShellRoundTrip.PatchedIsDefined | unraid-api-plugin-incus/src/config-sync.service.ts:581-590 | A patched variable is defined in the rewritten file, even when its text contains newlines. |
| ShellRoundTrip.ValuesHaveNoNewline | unraid-api-plugin-incus/src/config-sync.service.ts:270-293 | No value read from a file contains a newline. |
| ShellFrame.LinesStayInPlace | unraid-api-plugin-incus/src/config-sync.service.ts:550-590 | Every old line is still in its place: verbatim when no patched property owns it (up to one carriage return), with the same key otherwise; new lines only follow. |
| ShellFrame.CommentStays | unraid-api-plugin-incus/src/config-sync.service.ts:565-575 | With quote-free values a rewritten assignment keeps its comment. |
| ShellFrame.CommentFoundIff | unraid-api-plugin-incus/src/config-sync.service.ts:567-568 | A comment behind any value is found again by the next update exactly when the quoted text leaves the scanner outside quotes and has no `#` the scanner sees outside them. |
| ShellFrame.UpdateIdempotentIff | unraid-api-plugin-incus/src/config-sync.service.ts:517-591 | For values without newlines: updating twice equals updating once exactly when no copied line of the file, other than a last line with nothing appended behind it, ends with a carriage return, and on every line the update writes the comment, or its absence, is found again. |
| ShellFrame.OneQuoteLosesComment | unraid-api-plugin-incus/src/config-sync.service.ts:567-568 | A value with one apostrophe and no other quote always fails that condition. |
| ShellFrame.UpdateIdempotent | unraid-api-plugin-incus/src/config-sync.service.ts:517-591 | For quote- and newline-free values: updating twice equals updating once exactly when no copied line of the file, other than a last line with nothing appended behind it, ends with a carriage return. |
| ShellFrame.UpdateIdempotentWithoutCr | unraid-api-plugin-incus/src/config-sync.service.ts:517-591 | In particular for every file without carriage returns. |
| ShellFrame.QuoteNotIdempotent | unraid-api-plugin-incus/src/config-sync.service.ts:517-591 | A line with a comment that an update to a value whose quoted text does not close cleanly changes twice. |
| ShellFrame.UpdateNotIdempotent | unraid-api-plugin-incus/src/config-sync.service.ts:517-590 | A file that even the empty update changes twice. |
| ShellFrame.ClosesCleanlyIff | unraid-api-plugin-incus/src/config-sync.service.ts:295-308 | For texts without double quotes: the quoted text leaves the scanner outside quotes with no `#` seen outside exactly when the quotes are even in number and no `#` stands behind an odd number of them. |
| ConfigMerge.MergeReadsBackIffClean | unraid-api-plugin-incus/src/config-sync.service.ts:103-112 | After an update the difference test on the merged value and the re-read file is negative exactly for clean patches, for every file and patch. |
| ConfigMerge.CleanMergeIsReread | unraid-api-plugin-incus/src/config-sync.service.ts:103-112 | For clean patches merged and re-read configuration agree on every mapped property, defined or not, both boolean encodings included. |
| ConfigMerge.RereadAt | unraid-api-plugin-incus/src/config-sync.service.ts:104-109 | Property by property: an unpatched one is re-read as it was, a patched one is re-read as given exactly when it has no quote. |
| ConfigMerge.NewlineDisagrees | unraid-api-plugin-incus/src/config-sync.service.ts:105-109 | A patched text with a newline is never re-read as given. |
| ConfigMerge.QuotedTextIsLost | unraid-api-plugin-incus/src/config-sync.service.ts:158-160 | For every file, saving a text with a single quote makes the next sync see a difference. |
| ConfigMerge.FlagIsRead | unraid-api-plugin-incus/src/config-sync.service.ts:316-345 | A boolean setting is on exactly for its one word; every other text reads as off. |
| ConfigMerge.FlagIsWritten | unraid-api-plugin-incus/src/config-sync.service.ts:496-506 | An update of a boolean setting makes the file say enabled or disabled, true or false. |
| ConfigMerge.BitIsRead | unraid-api-plugin-incus/src/config-sync.service.ts:339-342 | Read from the file, the presence bit comes with the key's variable and says whether that is empty. |
| ConfigMerge.PresenceBit | unraid-api-plugin-incus/src/config-sync.service.ts:104-105 | After an update the bit says whether a key is set, by the patch or else by the file, whatever the patch gives for the bit. |
| FileSystems.FileSystem.Rename | unraid-api-plugin-incus/src/config-sync.service.ts:470-473 | Assumed of the system: a rename moves the content in one step or changes nothing. |
| FileSystems.FileSystem.Copy | unraid-api-plugin-incus/src/config-sync.service.ts:463-468 | Assumed of the system: a copy succeeds in full, or fails and may leave part of the target, which `torn` records. |
| ConfigTransaction.Stage | unraid-api-plugin-incus/src/config-sync.service.ts:460-461 | Staging touches only the two stage paths, and on success both hold the new contents. |
| ConfigTransaction.BackUp | unraid-api-plugin-incus/src/config-sync.service.ts:462-469 | A backup flag is set exactly when the file existed and its copy is complete. |
| ConfigTransaction.Install | unraid-api-plugin-incus/src/config-sync.service.ts:470-473 | Each install keeps the pair (old,old), (new,old) or (new,new), and the flags say which. |
| ConfigTransaction.RollBack | unraid-api-plugin-incus/src/config-sync.service.ts:474-489 | If no rollback step fails, both canonical files hold their original content or absence and both stages are gone; whatever fails, the JSON file holds its original and the shell file's original is in place or in its backup. |
| ConfigTransaction.WriteConfigPair | unraid-api-plugin-incus/src/config-sync.service.ts:443-493 | For every pattern of faults: at every intermediate state the pair is (old,old), (new,old) or (new,new). The call commits exactly when every operation of the try block works and returns normally exactly when the removals work too: then there are the two new files and nothing else changed. A commit with an error leaves a backup of an original; otherwise, with one fault always, the old pair is back; an incomplete rollback still leaves the original JSON in place and the original shell file in place or in its backup. |
| ConfigTransaction.CleanUp | unraid-api-plugin-incus/src/config-sync.service.ts:491-492 | After the commit only the backups are touched; an error means that one of the two is still there with its content, and comes exactly when a removal fails. |
| ConfigTransaction.CleanUpErrorExample | unraid-api-plugin-incus/src/config-sync.service.ts:491-492 | From every disk with a shell file: when only the first removal after the commit fails, the call ends with an error, the new pair and a backup left. |
| ConfigTransaction.TornBackupExample | unraid-api-plugin-incus/src/config-sync.service.ts:462-489 | From every disk with a shell file: when only its copy breaks, the old pair is back and the part copied stays behind. |
| ConfigSync.SyncConvergesIff | unraid-api-plugin-incus/src/config-sync.service.ts:148-167 | One sync makes any document agree with the shell file and a second writes nothing, except exactly when the document is JSON null and the file sets some variable of the plugin. |
| ConfigSync.NullNeverConverges | unraid-api-plugin-incus/src/config-sync.service.ts:148-167 | For every variable, a file of one line that sets it fails with null. |
| ConfigSync.SyncKeepsTheRest | unraid-api-plugin-incus/src/config-sync.service.ts:158-161 | Properties the shell file does not define, and unknown ones, survive the sync. |
| ConfigSync.SilentAfterUpdateIffClean | unraid-api-plugin-incus/src/config-sync.service.ts:142-167 | The sync triggered by an update finds nothing to do exactly for clean patches. |
| ConfigSync.CrashThenSync | unraid-api-plugin-incus/src/config-sync.service.ts:125-174 | From any state a crash can leave while a new pair is written, as an update does, the shell file is there, old or new, and one sync that gets the lock makes the document agree with it for good. |
| ConfigSync.CrashThenBoot | unraid-api-plugin-incus/src/config-sync.service.ts:54-58 | After a crash inside a clean update of files that agreed, whose lock file is still there, the files agree once the service has started exactly when that lock was stale, or the crash fell outside the two installs, or the update changed nothing. |
| ConfigSync.EarlyBoot | unraid-api-plugin-incus/src/config-sync.service.ts:54-58 | For every clean update that changes something there is a crash after which a restart at once keeps the new shell file beside the old document. |
| ConfigSync.EarlyBootExample | unraid-api-plugin-incus/src/config-sync.service.ts:54-58 | There are such updates: the first value ever set, with a run of the lock that leaves the file of a dead holder. |
| ConfigSync.ConfigSyncService.InitialSync | unraid-api-plugin-incus/src/config-sync.service.ts:54-58 | Without faults the start of the service leaves the document that the single attempt at the lock it finds allows: synced if it gets the lock, untouched if not; incus.cfg is never touched. |
| ConfigSync.ConfigSyncService.ApplyConfigUpdate | unraid-api-plugin-incus/src/config-sync.service.ts:93-120 | All outcomes of an update: missing file, busy lock and failed read change nothing; success and the committed-with-error outcome install exactly the specified pair, success touches no other file and the error leaves a backup; memory follows only success, and says like the returned copy whether a key is set; a rolled-back failure leaves the old pair, an incomplete one the original JSON and a recoverable shell file; the pair is good at every moment between; the returned copy hides the key. |
| ConfigSync.ConfigSyncService.SyncCfgToJSON | unraid-api-plugin-incus/src/config-sync.service.ts:125-174 | Without faults the document becomes the specified one, nothing is written when nothing differs, and incus.cfg is never touched; with a fault the document is old or a full copy of the shell settings; at every moment between, a reader finds each file as it was or as it is in the end. |
| ConfigSync.ConfigSyncService.WriteFileAtomic | unraid-api-plugin-incus/src/config-sync.service.ts:427-434 | At every moment, and so after a crash, the path holds the old content or the final one, which is the new content when nothing failed and the old one otherwise; only the temporary path may be left. |
| CfgLock.RunKeepsInv | unraid-api-plugin-incus/src/config-sync.service.ts:372-418 | Over every run whose unlinks remove the file their second stat saw, the steal being one step or two: a live holder owns the lock file or is overdue, and a file about to be stolen was stale and is known by its inode. |
| CfgLock.ExclusionWhileUnlinksHit | unraid-api-plugin-incus/src/config-sync.service.ts:372-418 | In all those runs, of two live holders one has held for more than 15 s. |
| CfgLock.LosesOnlyBy | unraid-api-plugin-incus/src/config-sync.service.ts:384-396 | In all those runs a live holder loses its file only by its own release, when overdue, or to an unlink that misses. |
| CfgLock.MutualExclusion | unraid-api-plugin-incus/src/config-sync.service.ts:372-418 | Of two live holders one has held for more than 15 s: while all release in time there is at most one. |
| CfgLock.OnlyOverdueLoses | unraid-api-plugin-incus/src/config-sync.service.ts:384-396 | A live holder's file disappears only by its own release or after it is overdue. |
| CfgLock.ReleaseKeepsOthers | unraid-api-plugin-incus/src/config-sync.service.ts:409-418 | In any state, release removes no file but the one with its own token. |
| CfgLock.SleepsAreBounded | unraid-api-plugin-incus/src/config-sync.service.ts:403-405 | Over every run of both models, with unlinks that hit or miss, an acquire sleeps at most maxRetries times. |
| CfgLock.GivesUpOnlyBy | unraid-api-plugin-incus/src/config-sync.service.ts:378-403 | A call ends without the lock only on an error of the create, or on a busy lock with its attempts used up. |
| CfgLock.BusyRound | unraid-api-plugin-incus/src/config-sync.service.ts:403-405 | A call that finds the lock busy with attempts left sleeps for 200 ms, no less, and tries again; the lock stays. |
| CfgLock.BusyUntilTheEnd | unraid-api-plugin-incus/src/config-sync.service.ts:372-407 | A call alone on a lock that stays busy makes maxRetries such rounds and only then gives up. |
| CfgLock.RetriesAtOnce | unraid-api-plugin-incus/src/config-sync.service.ts:390-401 | A lock file that is gone, cannot be looked at, or is no longer the one seen is left alone and tried again at once. |
| CfgLock.ReleaseFrees | unraid-api-plugin-incus/src/config-sync.service.ts:409-418 | The owner's release removes the file, and the next to try has the lock. |
| CfgLock.TakeOver | unraid-api-plugin-incus/src/config-sync.service.ts:384-398 | From any state whose lock is stale a fresh call gets the lock without waiting, and no other call moves. |
| CfgLock.LoneCallIff | unraid-api-plugin-incus/src/config-sync.service.ts:372-407 | From any state a single attempt made alone gets the lock exactly when there is no file or it is stale; otherwise it gives up and the file stays. |
| CfgLock.DeadLockStays | unraid-api-plugin-incus/src/config-sync.service.ts:384-407 | While the lock of a dead holder is not stale, no call made in any run gets the lock or touches its file. |
| CfgLock.OverrunGivesTwoHolders | unraid-api-plugin-incus/src/config-sync.service.ts:384-396 | The 15 s bound is needed: a run with two live holders. |
| CfgLock.SplitStealBreaksExclusion | unraid-api-plugin-incus/src/config-sync.service.ts:393-396 | When a call between second stat and unlink goes on while another holds the file, both hold, and neither is overdue exactly when the other was not; then the unlink misses the file seen. |
| CfgLock.SplitStealIsReachable | unraid-api-plugin-incus/src/config-sync.service.ts:382-396 | From any state with a stale lock, two calls racing to steal it reach that state. |
| CfgLock.SplitStealRun | unraid-api-plugin-incus/src/config-sync.service.ts:372-407 | A run from the empty start with two live holders, neither overdue. |
| JsonStore.RunKeepsInv | unraid-api-plugin-incus/src/json-store.ts:20-42 | Linearizability: at every moment of every interleaving the file is the fold, in call order, of the mutators that succeeded, calls proceed strictly in order, and each result is the mutator's on the fold before it. |
| JsonStore.ResultIsSequential | unraid-api-plugin-incus/src/json-store.ts:21-29 | What update() resolves with is what its mutator returns on the fold of the calls before it. |
| JsonStore.NoOverlap | unraid-api-plugin-incus/src/json-store.ts:22-27 | At most one update is between its read and its rename, and the file it works on is the fold of the completed ones. |
| JsonStore.ReadSeesTheFold | unraid-api-plugin-incus/src/json-store.ts:10-19 | A read at any moment of any run, update under way or not, returns the fold of the updates that have gone through, and nothing of one that has not. |
| JsonStore.FailureChangesNothing | unraid-api-plugin-incus/src/json-store.ts:22-27 | An update whose read, mutator or write throws leaves the file as it was. |
| JsonStore.NeverBlocked | unraid-api-plugin-incus/src/json-store.ts:27-28 | The first unsettled update always has a step to take, whatever failed before it. |
| JsonStore.UpdateGoesThrough | unraid-api-plugin-incus/src/json-store.ts:11-29 | In every reachable state an update whose turn has come, in which nothing goes wrong, replaces the file by what its mutator made of the records there, an absent file having none, and resolves with the result; no other call is touched. |
| JsonStore.UpdateRejects | unraid-api-plugin-incus/src/json-store.ts:11-29 | An update on a file that cannot be read, or whose mutator throws, rejects and leaves file and other calls alone. |
| JsonStore.RejectsOnlyBy | unraid-api-plugin-incus/src/json-store.ts:11-29 | An update rejects only for one of these, a failed read or a failed write. |
| JsonStore.SequentialKeeps | unraid-api-plugin-incus/src/json-store.ts:20-30 | A property every mutator keeps holds of the file at every moment. |
| ImageRegistry.FindAlias | unraid-api-plugin-incus/src/incus-image-builder.service.ts:262-263 | Finds the first record with the alias, -1 exactly when there is none. |
| ImageRegistry.SetMasterImage | unraid-api-plugin-incus/src/incus-image-builder.service.ts:260-268 | The mutator's in-place edits compute the specified registry, or fail for an untracked alias. |
| ImageRegistry.UntrackImage | unraid-api-plugin-incus/src/incus-image-builder.service.ts:271-278 | Removes the record, and reports whether there was one. |
| ImageRegistry.UntrackTells | unraid-api-plugin-incus/src/incus-image-builder.service.ts:270-278 | Over every interleaving untrackImage resolves with whether the alias was tracked in the fold of the operations before it. |
| ImageRegistry.RecordImageBuilt | unraid-api-plugin-incus/src/incus-image-builder.service.ts:280-291 | The record stands in the place of the first one with its alias, the rest unchanged; it is appended exactly when the alias is new. |
| ImageRegistry.ApplyKeepsRegistry | unraid-api-plugin-incus/src/incus-image-builder.service.ts:260-291 | Each operation keeps aliases distinct and at most one master. |
| ImageRegistry.MasterIsExactly | unraid-api-plugin-incus/src/incus-image-builder.service.ts:260-268 | setMasterImage(a, true) succeeds exactly for tracked aliases; then a alone is master and nothing else changed. |
| ImageRegistry.UnsetNonMaster | unraid-api-plugin-incus/src/incus-image-builder.service.ts:265-265 | Unsetting a record that is not master changes nothing. |
| ImageRegistry.UnsetExactly | unraid-api-plugin-incus/src/incus-image-builder.service.ts:260-268 | setMasterImage(a, false) takes the mark from the record of a, keeps the rest of it and every other record; if a was the master, none is left. |
| ImageRegistry.EditedTells | unraid-api-plugin-incus/src/incus-image-builder.service.ts:267-267 | setMasterImage resolves with that record, marked or unmarked as asked. |
| ImageRegistry.UntrackRemovesOne | unraid-api-plugin-incus/src/incus-image-builder.service.ts:273-276 | untrackImage takes out the first record with the alias and leaves the others in their order. |
| ImageRegistry.RebuildDropsMaster | unraid-api-plugin-incus/src/incus-image-builder.service.ts:282-289 | Rebuilding under the master's alias leaves no master. |
| ImageRegistry.RebuildKeepsMasterIff | unraid-api-plugin-incus/src/incus-image-builder.service.ts:282-289 | A build leaves a master exactly when the master's alias is another one. |
| ImageRegistry.RegistryAlwaysOk | unraid-api-plugin-incus/src/incus-image-builder.service.ts:260-291 | Over every interleaving through the store, failed operations included, aliases stay distinct and at most one record is master. |
| BuildScheduler.RunIsValid | unraid-api-plugin-incus/src/incus-image-builder.service.ts:520-532 | Between events at most two tasks run, a waiting task implies two running, enqueued = started + waiting and started = finished + running. |
| BuildScheduler.StartsInOrder | unraid-api-plugin-incus/src/incus-image-builder.service.ts:520-532 | Tasks start once each, in the order they were enqueued. |
| BuildScheduler.SettlingStartsTheHead | unraid-api-plugin-incus/src/incus-image-builder.service.ts:524-527 | While a task waits, any running task that settles, resolved or rejected, starts the head of the queue. |
| BuildScheduler.BuildQueue.EnqueueTask | unraid-api-plugin-incus/src/incus-image-builder.service.ts:520-532 | From any state of counter and queue, enqueue takes the machine's step: a free slot starts the task at once, otherwise it waits last. |
| BuildScheduler.BuildQueue.OnSettled | unraid-api-plugin-incus/src/incus-image-builder.service.ts:524-527 | The finally callback frees the slot and starts the next task. |
| BuildRun.RunKeepsInv | unraid-api-plugin-incus/src/incus-image-builder.service.ts:432-495 | Over every order of close, errors and timers: the timers armed match the stage of the shutdown, and the outcome matches what settled. |
| BuildRun.SettlesOnceInTime | unraid-api-plugin-incus/src/incus-image-builder.service.ts:457-485 | The body of finish runs at most once, and with timers on time it has run by 60 min + 10 s + 5 s after the spawn. |
| BuildRun.SuccessMeans | unraid-api-plugin-incus/src/incus-image-builder.service.ts:468-484 | The status of a finished build is a success exactly when finish ran with exit code 0, no error and no forced error, and the registry took the record. |
| BuildRun.SuccessEvents | unraid-api-plugin-incus/src/incus-image-builder.service.ts:432-495 | Over every list of events: a build ends as a success exactly when the child exits with 0 before any child error, log error, other exit or due timeout, and the registry's first answer to that is positive. |
| BuildRun.FirstReportDecides | unraid-api-plugin-incus/src/incus-image-builder.service.ts:432-495 | After calm events the first report decides: exit 0 waits for the registry, any other exit, a child error and a log error fail the build at once, each under its own name; after the due timeout a child that closes, with whatever code, has timed out. |
| BuildRun.RegistryDecides | unraid-api-plugin-incus/src/incus-image-builder.service.ts:473-484 | The registry's answer ends a build that waits for it, as success or as failed. |
| BuildRun.FinishedIsFinal | unraid-api-plugin-incus/src/incus-image-builder.service.ts:457-485 | Once finishedAt is set, no later event changes it or the status. |
| BuildRun.SilentChildSettles | unraid-api-plugin-incus/src/incus-image-builder.service.ts:446-456 | A child that never reports is settled as timed out by the timers alone, exactly at the deadline. |
| BuildRun.BuildProcess.FinishBuild | unraid-api-plugin-incus/src/incus-image-builder.service.ts:457-485 | finish as the fields see it: the first caller settles, every later call changes nothing. |
| BuildRun.BuildProcess.OnLogError | unraid-api-plugin-incus/src/incus-image-builder.service.ts:487-493 | A log error forces the failure and settles at once. |
| BuildLog.SilentLossIff | unraid-api-plugin-incus/src/incus-image-builder.service.ts:401-415 | Given that bytes were lost, the marker is missing exactly when some prefix of the pieces fills the limit to the byte. |
| BuildLog.SilentLossExample | unraid-api-plugin-incus/src/incus-image-builder.service.ts:401-415 | For every redactor that leaves such a line as it is: 257 lines of 65,536 units lose the last one without a marker, the first 256 filling the limit to the byte. |
| BuildLog.StraddlesPush | unraid-api-plugin-incus/src/incus-image-builder.service.ts:411-414 | The marker is due from the first piece that is cut, and stays due. |
| BuildLog.LogPipeline.WriteRedactedLog | unraid-api-plugin-incus/src/incus-image-builder.service.ts:401-415 | The file is always the first 16 MiB of the redacted pieces, and the marker is written once, exactly when a piece was cut. |
| BuildLog.LogPipeline.AppendLog | unraid-api-plugin-incus/src/incus-image-builder.service.ts:416-427 | Pieces handed over and pending text concatenate to the input. Whole lines are handed over in one piece; the unfinished line is held back up to 65,536 UTF-16 units, and of a longer one exactly the last 512 stay. |
| BuildLog.LogPipeline.LastNewline | unraid-api-plugin-incus/src/incus-image-builder.service.ts:418-418 | The position of the last newline, -1 exactly when there is none. |
| BuildLog.LogPipeline.Flush | unraid-api-plugin-incus/src/incus-image-builder.service.ts:465-466 | At settlement everything received has been handed over. |
| Timeline.UpsertView | unraid-codex/web-src/src/protocol.ts:107-121 | An upsert changes or adds the entry of its id and no other; an update function adds nothing. |
| Timeline.Projection | unraid-codex/web-src/src/protocol.ts:248-372 | Over every run the entry of an ordinary item is what the events addressed to its id alone make of it, whatever interleaves. |
| Timeline.StreamedText | unraid-codex/web-src/src/protocol.ts:293-355 | Until completion an item's text is its started text followed by its deltas in order, and likewise its command output, its summary and its reasoning text; the last with what stood at the end turned into text first. |
| Timeline.ReasoningExtendsIff | unraid-codex/web-src/src/protocol.ts:331-341 | A reasoning delta continues the reasoning text exactly when the last part is a bare string or there is none. |
| Timeline.ReasoningExample | unraid-codex/web-src/src/protocol.ts:331-341 | At an item whose content is one object the delta comes behind that object turned into text. |
| Timeline.DeltaExtends | unraid-codex/web-src/src/protocol.ts:293-355 | Each delta event extends exactly the streamed text it is for. |
| Timeline.CompletionWins | unraid-codex/web-src/src/protocol.ts:272-292 | A completion replaces whatever was streamed and keeps the start time, also for an item never started. |
| Timeline.StartShows | unraid-codex/web-src/src/protocol.ts:248-271 | An item that starts is shown with the turn, content and time of the notification; its completion time and progress stay. |
| Timeline.CompletionShows | unraid-codex/web-src/src/protocol.ts:107-121 | An item whose start was never seen is shown from its completion on. |
| Timeline.NotificationReaches | unraid-codex/web-src/src/protocol.ts:293-370 | Text, output, patch and progress notifications change just their field of the entry they name, output by its process if it names no item, and nothing if that entry is not there. |
| Timeline.PartSeparates | unraid-codex/web-src/src/protocol.ts:309-330 | A summary part that is added keeps the deltas after it apart from those before. |
| Timeline.CardShowsLastOutcome | unraid-codex/web-src/src/protocol.ts:279-290 | An approval card keeps everything but its command's outcome, and shows that of the last completion of the item it is about. |
| Timeline.CardShows | unraid-codex/web-src/src/protocol.ts:132-164 | A new card shows for every decision whether it accepts, and whether for the session, with the request's item, turn and time; a request that is no approval shows nothing. |
| Timeline.StepUniqueIff | unraid-codex/web-src/src/protocol.ts:107-164 | From unique ids every event leads to unique ids, except exactly a card or local message added under an id already shown. |
| Timeline.NotificationsKeepUnique | unraid-codex/web-src/src/protocol.ts:248-372 | Server notifications alone keep ids unique over every run. |
| Timeline.RunKeepsUnique | unraid-codex/web-src/src/protocol.ts:107-164 | Over runs with cards and local messages ids stay unique while none repeats an id. |
| Timeline.IdsCanRepeat | unraid-codex/web-src/src/protocol.ts:148-163 | Two requests with the same id repeat one. |
| Timeline.UniqueMeans | unraid-codex/web-src/src/protocol.ts:107-121 | Unique says that no two entries share an id. |
| Timeline.StepKeepsOrder | unraid-codex/web-src/src/protocol.ts:107-164 | Across every event the entries that stay keep their relative order, by position. |
| Timeline.RunKeepsOrder | unraid-codex/web-src/src/protocol.ts:107-164 | Over every run, repeated ids included, the entries left from the start stand in their old order, each under its old id. |
| Timeline.ServerItemsSurvive | unraid-codex/web-src/src/protocol.ts:251-261 | Over every run every entry of the start that is not a local echo is still there. |
| Timeline.DropEchoesView | unraid-codex/web-src/src/protocol.ts:253-260 | Only the pending local echo of the same text is dropped; every other entry is found as before. |
| Timeline.MessageShows | unraid-codex/web-src/src/protocol.ts:818-835 | A message the user sends is shown last, at once, as pending. |
| Timeline.NoEchoLeft | unraid-codex/web-src/src/protocol.ts:250-261 | Once the server reports a user message no pending local copy of its text is left. |
| Timeline.CardStandsBefore | unraid-codex/web-src/src/protocol.ts:160-163 | A new approval card stands directly before the first entry of the item it is about, or last, and without it the list is the old one. |
| RpcTable.DecimalInjective | unraid-codex/web-src/src/protocol.ts:210-213 | Two call numbers never share a key of the table. |
| RpcTable.RunKeepsInv | unraid-codex/web-src/src/protocol.ts:205-215 | Over every interleaving: every call is waiting or settled once, under its own key, on the current socket. |
| RpcTable.SettledAtMostOnce | unraid-codex/web-src/src/protocol.ts:584-590 | Every call ever made is waiting or settled exactly once; no other number is settled. |
| RpcTable.IdsAreNeverReused | unraid-codex/web-src/src/protocol.ts:205-215 | A call gets a number and key never used before; a call without an open socket changes nothing. |
| RpcTable.SettledOnlyBy | unraid-codex/web-src/src/protocol.ts:584-590 | A promise settles only by the response carrying its id or the close of the socket it went out on. |
| RpcTable.ResponseSettles | unraid-codex/web-src/src/protocol.ts:584-590 | Over every run: the response with the id of a waiting call settles that call with what it carries and forgets it, and leaves every other call and all else alone; a response nobody waits for changes nothing. |
| RpcTable.CallIsAnswered | unraid-codex/web-src/src/protocol.ts:205-215 | So a call made on an open socket is settled by its response, and the table is as before the call. |
| RpcTable.Reconnects | unraid-codex/web-src/src/protocol.ts:762-797 | After the close of its socket a hook that is not disposed takes no call until the timer has opened the next socket and that is open. |
| RpcTable.LeavingRefuses | unraid-codex/web-src/src/protocol.ts:205-209 | A socket that is leaving takes no call. |
| RpcTable.DisposeCloses | unraid-codex/web-src/src/protocol.ts:805-809 | Disposing clears the timer and starts closing the socket, so no call can be made; it settles none. |
| RpcTable.NoCallSurvivesAClose | unraid-codex/web-src/src/protocol.ts:781-788 | While the hook is not disposed, a waiting call went out on the current socket and that socket is not closed. |
| RpcTable.CloseSettlesAll | unraid-codex/web-src/src/protocol.ts:781-797 | Closing the current socket rejects every waiting call; after disposal it settles none. |
| RpcTable.DisposedIsFinal | unraid-codex/web-src/src/protocol.ts:805-809 | A disposed hook opens no further socket and makes no further call. |
| RpcTable.DisposalLeavesWaiting | unraid-codex/web-src/src/protocol.ts:781-782 | A run in which a call is still unsettled after disposal and close. |
| RpcTable.RejectAllTimes | unraid-codex/web-src/src/protocol.ts:784-787 | The close handler rejects each waiting call once and no other. |
| RpcTable.AppServerClient.Call | unraid-codex/web-src/src/protocol.ts:205-215 | rpc takes the next number exactly when the current socket is open; otherwise nothing changes. |
| RpcTable.AppServerClient.OnResponse | unraid-codex/web-src/src/protocol.ts:584-590 | The response handler settles and forgets the call of its key, and ignores unknown keys. |
| RpcTable.AppServerClient.OnClose | unraid-codex/web-src/src/protocol.ts:781-797 | The close handler's loop rejects all waiting calls in order, clears the table and arms the timer, unless disposed. |
| Polling.RunKeepsInv | unraid-api-plugin-incus/web/src/lib/polling.ts:23-75 | Over every interleaving the flags and the armed timers agree with what is in flight. |
| Polling.NoOverlap | unraid-api-plugin-incus/web/src/lib/polling.ts:38-52 | At most one started task has not settled. |
| Polling.NeverDies | unraid-api-plugin-incus/web/src/lib/polling.ts:33-52 | Until stop there is a task, its finally callback or an armed timer, and taking that step leads on. |
| Polling.StartRunsOrWaits | unraid-api-plugin-incus/web/src/lib/polling.ts:54-55 | Polling starts with a task if it is to run at once on a visible page, and otherwise with exactly one timer. |
| Polling.StartsExactlyWhen | unraid-api-plugin-incus/web/src/lib/polling.ts:38-63 | In any state a task starts exactly when a timer, trigger or the page coming back wakes an idle poller on a visible page before stop. |
| Polling.ErrorsExactlyWhen | unraid-api-plugin-incus/web/src/lib/polling.ts:45-46 | onError is called once for a rejection before stop, and for nothing else. |
| Polling.SettlingSetsTimer | unraid-api-plugin-incus/web/src/lib/polling.ts:47-50 | When a task is over, resolved or rejected, exactly one timer is set; after stop none is. |
| Polling.StopClears | unraid-api-plugin-incus/web/src/lib/polling.ts:67-71 | stop takes the pending timer away. |
| Polling.StopIsFinal | unraid-api-plugin-incus/web/src/lib/polling.ts:66-73 | After stop no task starts, no timer is set and onError is not called, whatever still fires. |
| Polling.ComingBackRuns | unraid-api-plugin-incus/web/src/lib/polling.ts:57-63 | A page that becomes visible runs the task at once unless one is in flight. |
| Polling.OneTimerWhileHarmless | unraid-api-plugin-incus/web/src/lib/polling.ts:33-63 | At most one timer is pending over every run in which trigger is called only after stop or, on a visible page, during a task. |
| Polling.OneTimerWithoutTrigger | unraid-api-plugin-incus/web/src/lib/polling.ts:33-63 | In particular in every run without trigger. |
| Polling.TriggerLeavesTimerIff | unraid-api-plugin-incus/web/src/lib/polling.ts:38-50 | Any other call of trigger, from such a state, leads to two pending timers once the task has settled. |
| Polling.TriggerLeavesTimer | unraid-api-plugin-incus/web/src/lib/polling.ts:38-50 | For instance straight after the start. |
| Polling.PollController.RunOnce | unraid-api-plugin-incus/web/src/lib/polling.ts:38-52 | On the closure variables, run does nothing once stopped, re-arms while hidden, and joins the task in flight instead of starting another. |
| Polling.PollController.OnVisibilityChange | unraid-api-plugin-incus/web/src/lib/polling.ts:57-63 | The visibility listener clears the timer and runs only when visible, active and idle. |
| Polling.PollController.StopPolling | unraid-api-plugin-incus/web/src/lib/polling.ts:67-73 | stop clears the pending timer and marks the controller stopped. |
| InsertionMaps.LastSetSurvives | unraid-api-plugin-incus/src/incus-package-search.service.ts:323-324 | A map trimmed oldest-first after an insertion stays within its bound and keeps the key just set. |
| InsertionMaps.EvictKeepsNewest | unraid-api-plugin-incus/src/incus-package-search.service.ts:323-324 | Trimming leaves the newest keys in order. |
| InsertionMaps.EvictAt | unraid-api-plugin-incus/src/incus-package-search.service.ts:323-324 | Trimming changes no entry it keeps. |
| InsertionMaps.SetKeepsPlace | unraid-api-plugin-incus/src/incus-package-search.service.ts:201-204 | A key that is there keeps its place when set again; a new one comes last. |
| InsertionMaps.DeleteKeepsOrder | unraid-api-plugin-incus/src/incus-package-search.service.ts:195-195 | Deleting a key leaves the others in their order. |
| PackageSearch.RunKeepsInv | unraid-api-plugin-incus/src/incus-package-search.service.ts:89-98 | Over every interleaving: a key is registered exactly while its fetch's finally has not run, and every cached entry and failure came from a completed fetch of its key. |
| PackageSearch.OneFetchPerKey | unraid-api-plugin-incus/src/incus-package-search.service.ts:89-98 | Per key at most one fetch is outstanding. |
| PackageSearch.ResultsAreFinal | unraid-api-plugin-incus/src/incus-package-search.service.ts:89-98 | The outcome of a fetch never changes: everybody who joined gets the same. |
| PackageSearch.ServedIsFresh | unraid-api-plugin-incus/src/incus-package-search.service.ts:235-238 | The next answer from a cache is what a completed fetch of that key returned less than six hours before, and starts no fetch. |
| PackageSearch.AnswersAreBacked | unraid-api-plugin-incus/src/incus-package-search.service.ts:193-199 | Over every run, for every answer given in it: data served was fetched for that key less than six hours before, a refusal repeats a failure of that key younger than a minute, and a joined fetch is one of that key. |
| PackageSearch.CatalogFetchesAreSpaced | unraid-api-plugin-incus/src/incus-package-search.service.ts:235-289 | Over every run: after a successful fetch of PyPI or Homebrew at time t no other fetch of it starts before t plus six hours. |
| PackageSearch.FetchedIndexHoldsOff | unraid-api-plugin-incus/src/incus-package-search.service.ts:303-326 | The same for an apt index, unless the index was thrown out to make room. |
| PackageSearch.FailedFetchHoldsOff | unraid-api-plugin-incus/src/incus-package-search.service.ts:193-206 | Over every run: after a failed fetch of any key at time t no other starts before t plus a minute, unless its record was thrown out to make room. |
| PackageSearch.EntryHoldsOff | unraid-api-plugin-incus/src/incus-package-search.service.ts:303-326 | From any state: while a cached entry is not thrown out, every later fetch of its key starts six hours or more after it was made. |
| PackageSearch.EarlierIsRemoved | unraid-api-plugin-incus/src/incus-package-search.service.ts:89-98 | Over every run a fetch that is not the last of its key has completed and left the table. |
| PackageSearch.FetchStartsWhen | unraid-api-plugin-incus/src/incus-package-search.service.ts:193-199 | One call: a fetch starts only with no fresh entry, no failure younger than a minute and none under way; a caller that finds one under way joins it. |
| PackageSearch.CleanupUnregisters | unraid-api-plugin-incus/src/incus-package-search.service.ts:95-96 | Over every run: the finally callback takes its own key out of the table, and leaves every other key and all else alone. |
| PackageSearch.CallersJoin | unraid-api-plugin-incus/src/incus-package-search.service.ts:89-94 | While a fetch is running every caller of its key who is not answered otherwise joins it. |
| PackageSearch.FailedFetchIsRetried | unraid-api-plugin-incus/src/incus-package-search.service.ts:193-206 | Over every run: a failed fetch's message is the answer for a minute, and from then on the next caller starts a new fetch. |
| PackageSearch.FetchedCatalogIsServed | unraid-api-plugin-incus/src/incus-package-search.service.ts:235-326 | Over every run: fetched data is the answer for six hours, and from then on the next caller starts a new fetch. |
| PackageSearch.SearchIsRepeated | unraid-api-plugin-incus/src/incus-package-search.service.ts:89-98 | What a search on npm found is kept by nobody: the next caller fetches again. |
| PackageSearch.SizesAreBounded | unraid-api-plugin-incus/src/incus-package-search.service.ts:201-204 | The apt cache never exceeds 8 entries, the failure map never 100. |
| PackageSearch.FetchedIndexSurvives | unraid-api-plugin-incus/src/incus-package-search.service.ts:322-324 | The index just fetched is cached after the eviction. |
| PackageSearch.RecordedFailureSurvives | unraid-api-plugin-incus/src/incus-package-search.service.ts:201-206 | The failure just recorded is on record after the eviction. |
| PackageSearch.PackageSearchService.CheckRecentFailure | unraid-api-plugin-incus/src/incus-package-search.service.ts:193-199 | Reports exactly the failures younger than a minute and drops expired ones. |
| PackageSearch.PackageSearchService.EvictOldest | unraid-api-plugin-incus/src/incus-package-search.service.ts:204-204 | The eviction loop removes the oldest keys down to the bound. |
| PackageSearch.PackageSearchService.DedupeInFlight | unraid-api-plugin-incus/src/incus-package-search.service.ts:89-98 | Returns the registered fetch of the key, or registers exactly one new one. |
| PackageSearch.PackageSearchService.GetIndex | unraid-api-plugin-incus/src/incus-package-search.service.ts:303-313 | For every cache state the getter answers from a fresh entry, refuses on a recent failure, or joins a fetch, and returns what it recorded. |
| PackageSearch.PackageSearchService.OnFetched | unraid-api-plugin-incus/src/incus-package-search.service.ts:314-326 | A completed fetch puts its data into its own cache only, trims it, and settles the fetch, all other maps unchanged. |
| PackageSearch.PackageSearchService.OnFailed | unraid-api-plugin-incus/src/incus-package-search.service.ts:327-330 | A failed fetch is recorded under its key, the record trimmed, and no cache touched. |
| MarkdownBlocks.NoLineIsLost | unraid-codex/web-src/src/components/aurora/ai/response.tsx:403-460 | The segments found cover every line once, in order. |
| MarkdownBlocks.SegmentsAreSegments | unraid-codex/web-src/src/components/aurora/ai/response.tsx:427-455 | Each segment is code up to its closing fence, a run of bullets, a run of plain lines or a blank line. |
| MarkdownBlocks.SegmentsAreUnique | unraid-codex/web-src/src/components/aurora/ai/response.tsx:427-455 | The decomposition is the only one with no two neighbouring lists or paragraphs and nothing after unclosed code. |
| MarkdownBlocks.BulletIff | unraid-codex/web-src/src/components/aurora/ai/response.tsx:442-442 | A line is a bullet exactly when it is written with a dash or a star: white space, the mark, white space, and an item on one line. |
| MarkdownBlocks.BulletsAreOneList | unraid-codex/web-src/src/components/aurora/ai/response.tsx:442-447 | Lines with dashes and stars in any mixture and indentation are one list of their items. |
| MarkdownBlocks.FenceIff | unraid-codex/web-src/src/components/aurora/ai/response.tsx:426-426 | An opening fence is exactly three backquotes, a word or none, and white space. |
| MarkdownBlocks.FenceReads | unraid-codex/web-src/src/components/aurora/ai/response.tsx:430-430 | A fence names its language, or text when it names none. |
| MarkdownBlocks.CloseIff | unraid-codex/web-src/src/components/aurora/ai/response.tsx:434-434 | A closing fence is exactly three backquotes and white space. |
| MarkdownBlocks.OtherLineIsPlain | unraid-codex/web-src/src/components/aurora/ai/response.tsx:442-457 | A line that starts with neither mark nor, unindented, a backquote is text. |
| MarkdownBlocks.MarkAloneIsPlain | unraid-codex/web-src/src/components/aurora/ai/response.tsx:442-457 | So is a mark with no white space behind it. |
| MarkdownBlocks.ParseBlocks | unraid-codex/web-src/src/components/aurora/ai/response.tsx:403-460 | The index loop with its accumulators returns the blocks of those segments, for every text. |
| MarkdownBlocks.TakeBody | unraid-codex/web-src/src/components/aurora/ai/response.tsx:434-437 | The inner loop takes the lines up to the first closing fence or the end. |
| MarkdownBlocks.FlushHeld | unraid-codex/web-src/src/components/aurora/ai/response.tsx:410-421 | A line of another class closes what the accumulators hold; they are never both in use. |
| MarkdownBlocks.ReplaceThenSplit | unraid-codex/web-src/src/components/aurora/ai/response.tsx:405-405 | Replacing CRLF and splitting is splitting at newlines with an optional carriage return. |
| MarkdownBlocks.PrintedLinesReadBack | unraid-codex/web-src/src/components/aurora/ai/response.tsx:403-460 | Blocks the parser makes, printed with a blank line between them, are read back line by line. |
| MarkdownBlocks.RoundTripIff | unraid-codex/web-src/src/components/aurora/ai/response.tsx:403-460 | parse(print(parse(m))) = parse(m) exactly when in the text m no line of code and no paragraph line ends with a carriage return, except the last line of a paragraph that only blank lines follow. |
| MarkdownBlocks.RoundTrip | unraid-codex/web-src/src/components/aurora/ai/response.tsx:403-460 | In particular for every text without carriage returns. |
| MarkdownBlocks.RoundTripCanFail | unraid-codex/web-src/src/components/aurora/ai/response.tsx:405-405 | A text for which it fails. |
| AptIndex.ParseApt | unraid-api-plugin-incus/src/package-catalog.worker.ts:10-36 | The character loop returns one record per stanza with a non-empty Package, in order, with the last value of each field, for every text. |
| AptIndex.StanzaReads | unraid-api-plugin-incus/src/package-catalog.worker.ts:10-36 | A stanza written line by line is one package if its last Package line has a value that is not blank, and none otherwise, with that name and the trimmed values of the last Description and Version lines, each in its own field; indented lines and lines without a colon set nothing. |
| AptIndex.StanzasPartition | unraid-api-plugin-incus/src/package-catalog.worker.ts:23-23 | Every line is in exactly one stanza, in place, and stanzas are separated by the empty lines. |
| AptIndex.LastValueIs | unraid-api-plugin-incus/src/package-catalog.worker.ts:29-31 | The value of a field is that of the last line of the stanza that sets it. |
| AptIndex.LastValueNone | unraid-api-plugin-incus/src/package-catalog.worker.ts:24-31 | A field that no line sets, continuation lines not counting, has no value. |
| AptIndex.TakeLine | unraid-api-plugin-incus/src/package-catalog.worker.ts:24-31 | One line changes the variable of the field it sets and no other. |
| AptIndex.ParsedConcat | unraid-api-plugin-incus/src/package-catalog.worker.ts:10-36 | Two indexes with an empty line between them are read one after the other. |
| AptIndex.CarriageReturnSeparates | unraid-api-plugin-incus/src/package-catalog.worker.ts:21-23 | So are two with a line between them that holds a carriage return alone. |
| AptIndex.FinalNewlineIsOptional | unraid-api-plugin-incus/src/package-catalog.worker.ts:20-21 | A missing final newline makes no difference. |

## Left out

- Strings are sequences of Unicode scalar values, not UTF-16 code units, so lone surrogates do not occur; only the build log, whose bounds count units, is modelled on code units.
- Concurrency: acquireCfgLock, JsonArrayStore.update and the promise chains are modelled as steps of state machines on values, not as methods with loops, because other processes act between their steps.
- CfgLock.MutualExclusion: takes the second stat with the unlink as a single step, and CfgLock.ExclusionWhileUnlinksHit says what holds when they are two; the read with the unlink of a release is one step in both. Tokens are distinct and a re-created file has a new inode.
- The lock loop's termination is not claimed: two of its paths retry without counting an attempt.
- Time does not pass inside one step, and the clock does not run backwards.
- BuildRun.SettlesOnceInTime: assumes that a timer that is due fires before the clock passes it.
- BuildLog: redaction is an arbitrary function from text to bytes; back-pressure on the child's streams, and a stream's way of cutting characters between chunks, are not modelled.
- ConfigSync: JSON text is modelled as the document it parses to, or as unparsable; a property that is no boolean or string, and properties other than the settings, are opaque values.
- ConfigTransaction.WriteConfigPair: the outcome of each file operation is read from an arbitrary sequence; the stage and backup names are required to be new; the random part of the names is not modelled. The rename of POSIX.1-2017 is atomic and a failed one has no effect; writes and copies may break half way.
- Timeline: item fields the client only displays are not carried; a decision that is an object counts as no decision; flattenTurns is covered by starting runs from any timeline.
- RpcTable: JSON parsing, server requests and the retry delay are not modelled; a response may come at any moment, from any socket.
- Polling: the abort signal, the length of the interval and the environment without a document are not modelled.
- PackageSearch: the search and ranking of results, the HTTP requests and the worker are not modelled; a fetch ends with data or an error at any later moment.
- MarkdownBlocks: the printer is part of the specification, the repository has none; inline markup and citations are not modelled.
- File modes, the re-arming and debouncing of the file watcher, and the boot order of the service: a watcher event is an arbitrary call of the sync.
- The bound of 8 on the build queue, the bound on the job maps and the parse round trip of values with a single quote, which the code does not keep.
- HTTP, WebSocket transport, process spawning, worker threads, GraphQL, permissions, the user interface, definition and script templates, and the regular expressions of redaction and validation.
