# SSHPad back end: a verified model

SSHPad keeps a list of SSH hosts, stores it either in `~/.ssh/config` or encrypted in an R2 bucket,
and runs tunnels and password prompts from concurrent HTTP handlers. This project models the six
components that carry that work and proves what they keep over every input, run or interleaving.

| files | component |
|---|---|
| `CText`, `SshHost`, `SshBlocks`, `SshParse`, `SshDirectives`, `SshReader`, `SshMeaning` | the `ssh_config` reader: text helpers, one record, block structure, lines, the code for one line, the one-pass loop, and what a whole block means in terms of its lines |
| `SshPrint`, `SshWriter`, `SshText`, `LineCodec`, `ColonForwards`, `RoundTrip`, `Stability` | the printer, the bytes it writes, what single lines and forwards are read as, that printing and parsing undo each other, and which texts survive a rewrite |
| `HostJson` | hosts as a JSON tree |
| `HostTable`, `ConfigSteps`, `ConfigManager`, `ConfigRuns`, `ConfigAnswers`, `ConfigReload`, `SyncRace` | the configuration manager: list edits, one step per call, the class, whole runs, what every call answers, reloading, overlapping saves |
| `Askpass` | the password table |
| `Tunnels`, `TunnelMonitor` | the tunnel table and the monitor thread |
| `Sse`, `SseReader` | the event broadcaster, and a reader of its stream |
| `SpdBlob`, `Base64` | the encrypted blob and base64 |
| `Runs` | runs of the state machines in which events may be impossible |

Code that changes things step by step is modelled by methods and classes that do the same
(`SshReader.Reader`, `ConfigManager.Manager`, `Askpass.Table`, `Tunnels.Manager`, `Sse.Broadcaster`,
`SshDirectives`, and the loops of the writer, the JSON conversions, base64 and the blob). Each of them is proved equal to a
function, and the theorems are about those functions. Where threads interleave, every critical
section is one step of a state machine whose runs are sequences of events by any number of threads.
Counts, generations and logs that occur in such a state only for the sake of a statement are
marked as such.

What is assumed throughout:

- Strings are sequences of characters. `atoi`, `%d` and `sscanf` behave as in glibc: the value is
  clamped to 64 bits and its low 32 bits are kept.
- `HomeOk`: the home directory is a single line that begins neither with white space nor with `~`.
- `CoercionOk`: json-c turns any value into some C `int`; strings of other JSON values are arbitrary.
- A GET or PUT, and every write of a file, may fail; a failed one changes nothing. Nobody else
  writes the bucket or the files during a run.
- `Correct` and `Authentic` (`SpdBlob`): decryption undoes encryption, and only what was sealed
  under a key opens under it. The configuration manager uses this in the form that a blob carries
  the password it opens under.

Some results are about values the program loses or interleavings it does not survive. The program is
modelled as it is, and the exact condition is proved:

- A host list survives a rewrite of the file if and only if every host is `HostShape` and `Stable`.
  What is lost: an empty name or host name, values with white space at the end, an identity file
  beginning with `~/`, forwards with a port that is not positive (the format without a blank accepts
  them, src/config_parser.c:101-129, the format with one does not, src/config_parser.c:98), options
  without a value.
- A password longer than 255 characters unlocks the store but not again after the next save.
- A secret that ends in four stars cannot be set.
- Two saves at the same time may leave the older list stored although both report success.
- A password written after its slot was re-allocated reaches another waiter; a start that registers in
  a slot meanwhile taken loses a tunnel, and one for a host meanwhile served doubles it; the last
  report of a tunnel names whichever host registered last in its slot; a subscription that fails
  after another has begun cuts the last one off from all events, or lets a later one share its slot
  with a connection that is not closed yet.

Where the comments and the code differ, the code is followed: `cm_create` does not read
`settings.json` and always begins in first-run mode (src/config_manager.c:144-159, against
src/config_manager.h:17), and a global `Port` is never inherited (src/config_parser.c:412-417).

## Model

| member | source | states |
|---|---|---|
| CText.TrimUnique | src/config_parser.c:163-170 | whatever lies between white space and is itself trimmed is what `trim` returns: the result is unique |
| CText.AtoiFormat | src/config_parser.c:728-729 | a 32-bit number printed with `%d` is read back by `atoi`, negative ones included |
| CText.ShortestFormat | src/config_parser.c:728-729 | a number is printed without plus sign and leading zero |
| CText.CutKeepsFront | src/config_parser.c:414-416 | a copy into a buffer keeps the beginning, as much as fits |
| CText.SpaceCodes | src/config_parser.c:163-170 | white space is the space and the characters from tab to carriage return |
| CText.StoredBits | src/config_parser.c:236-238 | what a port beyond 32 bits is read as |
| SshHost.ParseForwardShape | src/config_parser.c:60-130 | whatever the value, on both grammars, an accepted forward has a bind address without space or colon, a remote host without leading blank, both within their buffers, and 32-bit ports |
| SshHost.ProcessKvShape | src/config_parser.c:228-279 | a directive keeps the caps of 16 forwards and 32 options, every buffer bound, the name, and a port in range |
| SshHost.MergeOptions | src/config_parser.c:209-222 | the host's own options stay in front, nothing is invented, the cap of 32 holds |
| SshHost.MergeComplete | src/config_parser.c:209-222 | every global option has its key in the result unless that is full, and no added option repeats a key before it |
| SshHost.FirstDefaultWins | src/config_parser.c:209-222 | of several global options with one key exactly the first can be added |
| SshHost.ApplyDefaultsShape | src/config_parser.c:192-223 | merging the global defaults keeps a host well-shaped |
| SshBlocks.OnePass | src/config_parser.c:312-435 | reading one line at a time, with the current record, the skip flag and merging at the next `Host`, gives the same records as cutting the file into blocks, dropping wildcard blocks, folding each and merging the one global record |
| SshBlocks.BlocksConcat | src/config_parser.c:374-420 | a file may be cut before any `Host` line and its halves read apart |
| SshParse.ParsedShape | src/config_parser.c:297-436 | for any text at all, every parsed host obeys the character, length and number rules of its record |
| SshParse.OnlyFiveInherited | src/config_parser.c:192-223 | of what precedes the first `Host`, only host name, user, identity file, jump host and options can affect a host; a global port or forward never does |
| SshMeaning.FoldScalars | src/config_parser.c:228-279 | after any lines, each single-valued field is what the last line with its keyword says, in the case of a port the last one from 1 to 65535, and as it was if there is none |
| SshMeaning.FoldLists | src/config_parser.c:228-279 | forwards and options are those of all lines that can be read, in order, up to 16 and 32 |
| SshMeaning.BlockMeans | src/config_parser.c:192-279 | what a block means, in terms of its lines and those before the first `Host`: host name, user, identity file and jump host are the last of its own lines if that is not empty and otherwise the last of the others; the port comes from its own lines only and is otherwise 22; an unset host name is the name |
| SshMeaning.FileMeans | src/config_parser.c:297-436 | any block of any file contributes exactly one host with that meaning, or none if its name has a wildcard, between what the blocks before and after it contribute |
| SshMeaning.HostsAreThePlainOnes | src/config_parser.c:183-186 | the hosts of any text are named after exactly the `Host` values without `*` and `?`, in order |
| SshMeaning.AnyCase | src/config_parser.c:228-279 | which field a line concerns: the eight keywords in any mixture of upper and lower case, and nothing else |
| SshMeaning.Separators | src/config_parser.c:345-372 | `key=value`, `key value` and, without a space, a tab between them give key and trimmed value |
| SshMeaning.LineEnds | src/config_parser.c:339-341 | a line means the same whether it ends in a line feed, a carriage return and a line feed, or not at all |
| SshMeaning.Skipped | src/config_parser.c:345-372 | exactly which lines are skipped |
| SshMeaning.TildeMeans | src/config_parser.c:34-47 | `~/p` is `p` in the home directory, any other path is itself |
| SshDirectives.TrimText | src/config_parser.c:163-170 | the two scanning loops compute the trimmed text |
| SshDirectives.SameKeyword | src/config_parser.c:173-180 | the comparison loop is equality up to letter case, length included |
| SshDirectives.MergeInto | src/config_parser.c:209-222 | the nested loops merge options as specified |
| SshDirectives.InheritDefaults | src/config_parser.c:192-223 | field by field, the record with the global defaults merged in |
| SshDirectives.ReadColons | src/config_parser.c:101-129 | the colon-counting loop and the two formats without a blank |
| SshDirectives.ReadForwardRule | src/config_parser.c:60-130 | which of the formats is used, and with which parts |
| SshDirectives.ReadDynamicRule | src/config_parser.c:141-160 | address and port of a dynamic forward, or localhost |
| SshDirectives.ApplyDirective | src/config_parser.c:228-279 | the chain of keywords changes exactly the specified field of the record |
| SshDirectives.SplitText | src/config_parser.c:345-375 | which separator is used, which lines are skipped, and the keyword and value of the others |
| SshDirectives.ReadLine | src/config_parser.c:339-375 | the same from a line buffer |
| SshReader.Reader.constructor | src/config_parser.c:312-334 | eight empty slots, no record open |
| SshReader.Reader.Finalise | src/config_parser.c:381-385 | the open record, and only that, is merged with the global one |
| SshReader.Reader.Grow | src/config_parser.c:395-410 | doubling the array keeps all records and makes room |
| SshReader.Reader.BeginHost | src/config_parser.c:374-420 | a `Host` line merges the open record, then opens one or starts skipping, within the array |
| SshReader.Reader.Apply | src/config_parser.c:422-425 | any other line changes the open record, the global one, or nothing |
| SshReader.Reader.Parse | src/config_parser.c:297-436 | the loop over `fgets` lines with the doubling array returns exactly the batch specification's list, for every text |
| SshWriter.PutScalar | src/config_parser.c:717-737 | a field is printed unless it is empty |
| SshWriter.PutAll | src/config_parser.c:739-760 | the loop prints every forward on a line of its own |
| SshWriter.PutOptions | src/config_parser.c:762-767 | the loop prints every generic option |
| SshWriter.PutHost | src/config_parser.c:712-767 | one host, its omissions included |
| SshWriter.WriteConfig | src/config_parser.c:671-776 | the printing loops produce the specified text, omissions included |
| SshText.PrintsHost | src/config_parser.c:712-767 | the block of a host byte for byte: which lines, under which keyword, in which order, and when one is left out |
| SshText.PrintsFile | src/config_parser.c:704-768 | the file is the header line and then these blocks in order |
| LineCodec.ReadPrinted | src/config_parser.c:339-372 | a printed line `key value` is read back as its key and trimmed value, and is skipped exactly when the value is empty and the key holds no tab |
| LineCodec.ReadForward | src/config_parser.c:739-753 | a printed forward is read back as itself if both ports are positive and rejected otherwise; the remote host may contain colons |
| LineCodec.ReadDynamic | src/config_parser.c:755-760 | a printed dynamic forward is read back as itself, whatever its port |
| ColonForwards.ReadsFourParts | src/config_parser.c:116-124 | `addr:port:host:port` is read as exactly these parts, for every address and host without blank or colon that fits and every 32-bit port, positive or not |
| ColonForwards.ReadsThreeParts | src/config_parser.c:107-115 | `port:host:port` likewise, on localhost |
| ColonForwards.ReadsPortAndTarget | src/config_parser.c:86-98 | `port host:port` is read on localhost if both ports are positive and rejected otherwise, whatever the host contains |
| ColonForwards.AnyGap | src/config_parser.c:66-77 | any run of spaces and tabs separates the two parts, if it begins with a space or the value has no space |
| ColonForwards.RejectsOthers | src/config_parser.c:86-129 | a second part without a colon is refused, and so is a value without a blank that has neither two nor three colons |
| ColonForwards.LongValue | src/config_parser.c:60-66 | of a longer value the first 511 characters are looked at |
| ColonForwards.LooseNumber | src/config_parser.c:86-98 | white space and one sign before a number are accepted, anything may follow it |
| ColonForwards.NoNumber | src/config_parser.c:86-98 | what does not begin with a number is read as 0 |
| ColonForwards.ReadsDynamicPort | src/config_parser.c:141-160 | `port` alone listens on localhost, for every 32-bit port and with blanks in front |
| ColonForwards.ReadsDynamicAddress | src/config_parser.c:141-160 | `addr:port` listens on the first 63 characters of the address |
| LineCodec.LinesCover | src/config_parser.c:336-337 | the pieces `fgets` returns fit the buffer, are never empty, and concatenate to the whole text, for any text |
| LineCodec.LinesGreedy | src/config_parser.c:336-337 | and each ends at a newline or is full, except the last; so they are the only pieces possible |
| LineCodec.LinesOfRender | src/config_parser.c:336-337 | reading lines from rendered lines gives those lines, for any number of them |
| RoundTrip.BlockReread | src/config_parser.c:228-279 | the directives of one printed host, applied in order, give back every field as `Reread` says, in all nine sections |
| RoundTrip.UnnamedLost | src/config_parser.c:357-364 | a list holding a host with an empty name is read back with fewer hosts |
| RoundTrip.RereadFixed | src/config_parser.c:709-768 | a well-shaped host is read back unchanged if and only if it is stable |
| RoundTrip.RoundTrips | src/config_parser.c:297-436 | parsing the printed text of any list of hosts gives that list if and only if every host is well-shaped and stable |
| RoundTrip.Stabilises | src/config_parser.c:671-776 | for any text, writing and re-reading what was parsed changes nothing if and only if every parsed host is stable |
| Stability.WholeTextStabilises | src/config_parser.c:297-436 | for any text without truncation, without an empty host, host name or option value, and without a port that is not positive in an accepted forward (dropped blocks aside), parsing, writing and parsing again gives the first list |
| HostJson.HostBack | src/config_parser.c:471-516 | a host record comes back from its JSON object without generic options and with port 0 read as 22 |
| HostJson.ReadFits | src/config_parser.c:549-626 | whatever the JSON tree, what is read fits the buffers, the cap of 16 and 32-bit integers |
| HostJson.Described | src/config_parser.c:471-516 | which key of the object holds which field, and no other key is there |
| HostJson.ScalarsRead | src/config_parser.c:549-565 | of an object with any strings and numbers each field is the longest beginning that fits its buffer and holds no terminator, or the nearest 32-bit number |
| HostJson.ForwardRead | src/config_parser.c:567-587 | likewise for a forward |
| HostJson.SixteenRead | src/config_parser.c:567-587 | of an array the first sixteen elements in order, of anything else nothing |
| HostJson.JsonRoundTrips | src/config_parser.c:465-630 | a list comes back from JSON unchanged if and only if every host fits its record, has a port other than 0 and no generic options |
| HostJson.PutHosts | src/config_parser.c:465-523 | the writing loops compute the specified tree |
| HostJson.TakeForwards | src/config_parser.c:567-587 | the loop takes at most the first sixteen elements of an array, and nothing of anything else |
| HostJson.TakeHosts | src/config_parser.c:531-630 | the reading loops compute the specified list |
| HostTable.SaveIsUpdate | src/config_manager.c:367-390 | saving is map update, leaves all other hosts in their order, and keeps names distinct |
| HostTable.DeleteIsRemoval | src/config_manager.c:410-430 | deleting is map removal if and only if the name occurs at most once; it then leaves exactly the others in order; a failed lookup changes nothing |
| ConfigManager.Manager.constructor | src/config_manager.c:133-160 | a new manager is in first-run mode, with the stored credentials if there are any |
| ConfigManager.Manager.PutObject | src/r2_client.c:372-437 | a failed upload leaves every object as it was |
| ConfigManager.Manager.SyncHosts | src/config_manager.c:104-127 | stores the list in the place of the mode, or nothing; the whole new state is stated |
| ConfigManager.Manager.UnlockWith | src/config_manager.c:166-253 | all exits of the unlock, with the whole new state |
| ConfigManager.Manager.SetupForCloud | src/config_manager.c:280-311 | the wizard's cloud branch, with the files written before each failure |
| ConfigManager.Manager.UseLocalFile | src/config_manager.c:590-608 | the list is what the local file says, none if there is no file |
| ConfigManager.Manager.SetupForLocal | src/config_manager.c:265-279 | the wizard's local branch: the list of the local file once the settings are saved, or no change |
| ConfigManager.Manager.Search | src/config_manager.c:367-374 | the loop finds the first host of a name, or none |
| ConfigManager.Manager.SaveOne | src/config_manager.c:360-397 | replaces or appends in memory even when storing fails |
| ConfigManager.Manager.DeleteOne | src/config_manager.c:403-437 | closes the gap, and reports success even when storing fails |
| ConfigManager.Manager.ReplacePassword | src/config_manager.c:443-482 | new password and new blob, or the old state |
| ConfigManager.Manager.ReadR2 | src/config_manager.c:488-504 | a secret of more than four characters is shown as its first four and four stars, eight in all, and stands for the current secret when sent back; a shorter one and all other fields are shown as they are |
| ConfigManager.Manager.ReplaceR2 | src/config_manager.c:510-584 | new credentials, file and blob, with the rollback of the file |
| ConfigAnswers.PlaceReads | src/r2_client.c:302-307 | the URL is endpoint, bucket and key with slashes between them |
| ConfigAnswers.RestartMeans | src/config_manager.c:133-160 | a start finds the credentials of the file or the default key, and when they count as configured |
| ConfigAnswers.LocalSetups | src/config_manager.c:265-279 | after setting up or choosing local mode, from any state and for a file by anybody, the list is what the file says, none if there is no file, and nothing else has changed; if the settings cannot be saved nothing has |
| ConfigAnswers.SaveAnswers | src/config_manager.c:360-397 | a save answers 0 exactly if there is a store and it took the list, which it then holds; after -1 only memory has the edit |
| ConfigAnswers.DeleteAnswers | src/config_manager.c:403-437 | a deletion answers -1 exactly if there is no such host, and changes nothing then; otherwise 0, stored or not |
| ConfigAnswers.UnlockAnswers | src/config_manager.c:166-253 | when an unlock answers -2, when 0, and that it is -1 otherwise |
| ConfigAnswers.UnlockOpens | src/config_manager.c:222-247 | the list after an unlock is what the object contains; if there was none, an empty one is stored |
| ConfigAnswers.CloudSetups | src/config_manager.c:280-311 | how far the wizard has come at each of its failures, and what it answers |
| ConfigAnswers.PasswordAnswers | src/config_manager.c:443-482 | when a change of password answers -1, -2 and 0, and the state after each |
| ConfigAnswers.ShownMeans | src/config_manager.c:488-504 | which part of a secret is shown, and that all other fields are |
| ConfigAnswers.CredentialsAnswer | src/config_manager.c:510-584 | answer and state after a change of credentials, in each mode and for each outcome of the upload |
| ConfigRuns.CloudAgreement | src/config_manager.c:166-253 | after any run from a start, in cloud mode the object at the current place is encrypted under a password whose first 255 characters are the stored one, and opens under the stored one if and only if it has no more |
| ConfigRuns.ShortPasswordsAgree | src/config_manager.c:189-247 | if all unlock passwords have at most 255 characters, the remote object opens under the stored password after every run |
| ConfigRuns.PasswordWorksAgain | src/config_manager.c:189-220 | the password that unlocked the store unlocks it again after the next save and a restart if and only if it has at most 255 characters |
| ConfigRuns.RemoteHoldsLastSync | src/config_manager.c:104-127 | after any run, in cloud mode the remote object holds the list as of the last successful synchronisation |
| ConfigRuns.EditsPublish | src/config_manager.c:360-437 | after any run of edits with any failures in between, memory has all of them, the store has exactly those up to the last that reached it, so the first success publishes all pending ones, and nothing else has changed |
| ConfigRuns.EditsRefineMap | src/config_manager.c:360-437 | any run of edits on distinct names is the same run on a finite map |
| ConfigRuns.CloudEntry | src/config_manager.c:259-315 | cloud mode is entered only by an unlock that succeeds, from locked mode or within the wizard |
| ConfigRuns.RefusedUnlock | src/config_manager.c:174-252 | an unlock succeeds exactly in locked mode, with an answer, and with a blob under that password or none there and a successful upload; otherwise nothing changes, not even remotely |
| ConfigRuns.NeverFirstRunAgain | src/config_manager.c:144-148 | without a restart, no run returns to first-run mode |
| ConfigRuns.LocalRunKeepsRemote | src/config_manager.c:110-126 | outside cloud mode, a run without an unlock leaves the remote store as it is |
| ConfigRuns.CloudRunKeepsConfig | src/config_manager.c:110-126 | outside local mode, a run that does not switch to it leaves the local file as it is |
| ConfigRuns.OtherObjectsUntouched | src/config_manager.c:542-576 | no run touches an object at a place the manager was never told about |
| ConfigRuns.FailedChangesRollBack | src/config_manager.c:460-479 | after any run whose files could be written, a failing change of password or credentials restores the whole state, the credentials file included |
| ConfigRuns.PasswordChanges | src/config_manager.c:443-482 | a password changes in memory and remotely together, or not at all, and exactly when the old one is right and the upload succeeds |
| ConfigRuns.ShownComesBack | src/config_manager.c:488-540 | sending the masked credentials back leaves those in use unchanged, for every length of the secret |
| ConfigRuns.SecretTaken | src/config_manager.c:517-540 | credentials are taken over as given if and only if the secret does not end in four stars or is the current one |
| ConfigReload.RunFits | src/config_manager.c:233-240 | in every reachable state each host in memory fits its record |
| ConfigReload.LocalReload | src/config_manager.c:590-608 | after any edits in local mode, `cm_use_local` gives the list last written if and only if every host of it is well-shaped and stable |
| ConfigReload.FileHoldsLastWritten | src/config_manager.c:118-122 | after any run at all the local file holds the text of the list as of the last local edit that reached it, or is as it was |
| ConfigReload.LocalReloadAnyRun | src/config_manager.c:590-608 | so after any run, `cm_use_local` gives that list if and only if every host of it is well-shaped and stable |
| ConfigReload.CloudReload | src/config_manager.c:222-247 | after any run and edits of which one reached the store, a restart and a fresh unlock succeed and give the published list without options and with port 0 as 22, unchanged if and only if each host is storable |
| ConfigReload.CloudReloadAnyRun | src/config_manager.c:104-127 | after any run at all that ends in cloud mode, a restart and a fresh unlock succeed if and only if the encrypting password has at most 255 characters, and give what is kept of the list last synchronised by an edit or a change of password or credentials, or the list found if none was |
| SyncRace.StoresSnapshots | src/config_manager.c:392-396 | in every interleaving of saves, what is stored is a value the list has had |
| SyncRace.NewestStored | src/config_manager.c:392-396 | in every interleaving the stored list is the one encoded by the last landing that succeeded; a newest list that differs from all before is stored if and only if that was encoded after the last edit |
| SyncRace.SerialSyncsPublish | src/config_manager.c:392-396 | so if synchronisations neither overlap nor fail, then once all calls have returned the newest list is stored |
| SyncRace.StaleRemote | src/config_manager.c:392-396 | a run of two saves, both successful, that leaves the older list stored |
| Askpass.Table.AllocSlot | src/askpass.c:88-107 | the scan takes the first free slot and clears it, or takes none |
| Askpass.Table.FindSlot | src/askpass.c:113-123 | the scan finds the first slot in use under the identifier |
| Askpass.Table.Store | src/askpass.c:274-279 | the password is kept in 511 characters and marked ready |
| Askpass.Table.Collect | src/askpass.c:341-347 | takes a ready, non-empty password out and wipes it |
| Askpass.Table.Release | src/askpass.c:351-354 | gives the slot back and keeps its contents |
| Askpass.SlotsConserved | src/askpass.c:298-357 | in every run the slots in use correspond one to one to the waiters holding them, at most 16; a request is turned away exactly at 16; every slot handed out is held or has been given back once |
| Askpass.NothingLeftBehind | src/askpass.c:341-347 | a password taken away is wiped, and a slot handed out holds none |
| Askpass.NoMisdelivery | src/askpass.c:260-282 | in every run a waiter that ends, timed out or not, receives exactly the last password written since it got its slot, or nothing if there was none or it was empty; if no slot was re-allocated between a deliverer's lookup and write, all that was written was for its own identifier |
| Askpass.WriteReachesOwner | src/askpass.c:265-279 | in every run with distinct requests, a deliverer about to write into a waiter's slot delivers to its own identifier if and only if the slot was not re-allocated since the lookup; the waiter takes away what is written in either case |
| Askpass.FoundUnderOwnId | src/askpass.c:97-118 | a waiter can be found under its own identifier if and only if that has at most 63 characters |
| Askpass.LateWriteMisdelivers | src/askpass.c:265-279 | so in such a run a write after a re-allocation always hands the waiter a password for another identifier |
| Askpass.Misdelivery | src/askpass.c:265-279 | a run, for any two identifiers, in which the second waiter receives the password meant for the first |
| Tunnels.Manager.CheckAlias | src/process_manager.c:49-60 | the loop accepts exactly the non-empty names of letters, digits, `-`, `_` and `.` |
| Tunnels.Manager.BeginStart | src/process_manager.c:219-256 | refuses or chooses a slot as specified |
| Tunnels.Manager.RegisterProcess | src/process_manager.c:331-339 | the entry is replaced as a whole |
| Tunnels.Manager.RetireSlot | src/process_manager.c:163-165 | an ended tunnel is marked inactive and nothing else changes |
| Tunnels.Manager.StopTunnel | src/process_manager.c:384-406 | signals the process of the first active entry of the host, or none |
| Tunnels.Manager.TunnelStatus | src/process_manager.c:413-432 | reports whether an active entry serves the host |
| Tunnels.Manager.TerminateAll | src/process_manager.c:445-454 | the first pass signals exactly the active processes, in order |
| Tunnels.Manager.KillSurvivors | src/process_manager.c:459-478 | the second pass kills exactly the active processes that still run and retires their entries, and those of the others |
| Tunnels.ForkExact | src/process_manager.c:331-339 | a registration keeps hosts distinct and overwrites no live entry if and only if its slot is idle and its host not served, which the code does not check |
| Tunnels.TableSafe | src/process_manager.c:225-339 | in every run, however starts overlap: hosts of active entries stay distinct and no live entry is overwritten if and only if every registration was of that kind |
| Tunnels.SerialGuarded | src/process_manager.c:225-256 | runs whose starts do not overlap are of that kind |
| Tunnels.CountGrows | src/process_manager.c:246-254 | in every run the count of slots never decreases and never exceeds 64 |
| Tunnels.StartAnswers | src/process_manager.c:219-256 | a start is refused exactly for a name that is empty or has a character not allowed, for a host that is served, and if all 64 entries are active; otherwise it gets the first free entry, whose slot raises the count if it lies beyond it |
| Tunnels.RegisteredUnder | src/process_manager.c:331-339 | a registered entry is active with its process under the first 127 characters of the host, and no other entry changes |
| Tunnels.SignalledRun | src/process_manager.c:445-454 | which processes a shutdown signals: those of active entries, in order |
| Tunnels.KillAllRetires | src/process_manager.c:440-479 | after a shutdown no entry with a process is active, and nothing else has changed |
| Tunnels.AliasCodes | src/process_manager.c:49-60 | the characters of an alias, by code |
| Tunnels.StopMeansActive | src/process_manager.c:384-432 | in such a safe run a host is reported active, its stop succeeds and its second start is refused exactly when one entry serves it, which is then the only one; other starts are refused exactly when all 64 entries are active |
| Tunnels.StopHitsItsProcess | src/process_manager.c:389-402 | in a safe run, before shutdown, a stop of a host would signal a process exactly if that process was started for the host and its monitor has not given up the entry |
| Tunnels.StopAfterReap | src/process_manager.c:134-165 | so from the moment the monitor has reaped the process until it gives up the entry, a stop signals a process that is gone |
| Tunnels.ForkOntoLive | src/process_manager.c:331-339 | a registration into a live entry loses that tunnel: its process is in no active entry and its host, if another one, reported inactive |
| Tunnels.ForkOfServedHost | src/process_manager.c:331-339 | a registration in an idle slot for a host that is served leaves two active entries for it |
| Tunnels.OverlapSharesSlot | src/process_manager.c:236-256 | a start is given the slot of another that has not registered yet if and only if all slots before it are busy |
| Tunnels.OverlapLosesTunnel | src/process_manager.c:331-339 | of two starts of different hosts with nothing in between, from any safe state, the first is left running but in no active entry and its host reported inactive |
| Tunnels.OverlapElsewhere | src/process_manager.c:225-339 | a run in which two starts overlap in different slots: both tunnels live, with distinct hosts if and only if the starts were of different ones |
| Tunnels.ReportNamesLast | src/process_manager.c:163-175 | after a safe run, the exit of a process and any further events, the final report names the host of that process if and only if no start, or one of the same host, registered last in its slot since the exit |
| Tunnels.ReportNamesOther | src/process_manager.c:163-175 | if a start of another host takes the slot before the last report, the end of one tunnel is reported for another that is running |
| TunnelMonitor.Watch | src/process_manager.c:110-178 | at most 24 polls; which events are sent, in which order, with which code and message |
| TunnelMonitor.Serve | src/process_manager.c:341-372 | the start announces the tunnel and its monitor does the rest: the statuses sent form one of three words; `active` exactly if all 24 polls found the process alive, `error` exactly if the exit code is not zero and `active` was not sent; exit code and message are given for each way a process can end |
| Sse.Broadcaster.AddClient | src/sse.c:104-132 | a subscription takes the next slot, or none beyond 32; if its pipe cannot be made the slot is cleared |
| Sse.Broadcaster.GiveUp | src/sse.c:141-151 | the error path closes its own slot and takes one off the count |
| Sse.Broadcaster.FreeClient | src/sse.c:83-96 | a closed connection deactivates its slot without giving it back |
| Sse.Broadcaster.SendTo | src/sse.c:187-202 | the write loop, for every script of partial writes, interruptions and errors, adds the frame or a prefix of it to the pipe and gives the client up exactly in the second case |
| Sse.Broadcaster.Broadcast | src/sse.c:169-206 | every active client among the slots in use receives `event: …`, `data: …` and an empty line, nobody if that has 4096 bytes or more |
| Sse.Broadcaster.ReadSome | src/sse.c:49-78 | a read moves as many bytes as are there and wanted from the front of the pipe to the connection |
| Sse.StepGood | src/sse.c:101-206 | a step keeps every client in order, no slot shared and nobody behind those in use, if and only if it is neither a failing response of another slot than the last while the last has an active client or a pending subscription, nor a subscription given a slot whose previous connection is not closed yet |
| Sse.Ordered | src/sse.c:49-206 | in every run, however subscriptions overlap: at every point no two connections share a slot, and bytes read plus bytes in the pipe are exactly what was broadcast since the client joined, a prefix of it once the client is given up or gone, if and only if every step of the run was of the harmless kind |
| Sse.SameOrder | src/sse.c:169-206 | in such a run any two active clients, each read by its own connection only, see the same bytes from when both are there |
| SseReader.StreamRead | src/sse.c:169-206 | a reader that cuts the stream at empty lines and takes the fields `event` and `data` gets back exactly the messages, if no message has a line break |
| SseReader.ClientsRead | src/sse.c:49-206 | so in such a run what an active client has read and still has in its pipe is, for that reader, exactly the list of messages broadcast since it joined, and the first of them for one given up |
| SseReader.SentUnlessTooLong | src/sse.c:169-178 | a message counts as broadcast unless its frame would fill 4096 bytes |
| SseReader.FramePushed | src/sse.c:187-202 | a client gets the whole frame unless a write fails before, and then exactly the bytes written until then |
| Sse.AtMost32 | src/sse.c:106-132 | over its whole life, and however subscriptions overlap and fail, the broadcaster accepts at most 32 |
| Sse.FullForever | src/sse.c:83-96 | and none afterwards, even when every client has gone |
| Sse.OverlapLosesClient | src/sse.c:141-151 | in any state in order, if the response of another slot fails while the last client is active, that client stays active and misses the next frame |
| Sse.OverlapHappens | src/sse.c:101-141 | such a state is reached by two subscriptions that begin before either response is made |
| Sse.OldConnectionReads | src/sse.c:49-62 | whenever a subscription is given a slot whose previous connection is not closed yet, that connection can read the frames meant for the new client |
| Sse.OldConnectionCloses | src/sse.c:83-96 | and closing it shuts the new client, which misses every frame from then on |
| Sse.SharingHappens | src/sse.c:101-206 | such a state is reached: a client is given up, and before its connection is closed the response of an earlier slot fails |
| Sse.OutOfReach | src/sse.c:141-182 | and all later ones: it gets nothing more until a new subscription takes its slot |
| SpdBlob.Layout | src/crypto_store.c:116-193 | a blob is read as certain fields exactly when it is the assembly of them, of the right lengths and with a counter from 1 to ten million; it is 68 bytes longer than the ciphertext |
| SpdBlob.DecryptUndoesEncrypt | src/crypto_store.c:40-158 | decryption under the same password undoes encryption |
| SpdBlob.EncryptionBegins | src/crypto_store.c:127-137 | the eight bytes an encryption begins with: "SPD", 1 and 600000 |
| SpdBlob.DecryptsOnlyEncryptions | src/crypto_store.c:165-256 | a blob decrypts to a text exactly when it is an encryption of that text under that password with some salt, nonce and counter in range |
| SpdBlob.CounterBack | src/crypto_store.c:131-137 | the four bytes of the counter give it back, for all 32-bit values |
| SpdBlob.Assemble | src/crypto_store.c:116-157 | the advancing pointer fills exactly the specified bytes |
| SpdBlob.Decrypt | src/crypto_store.c:165-256 | the sequence of checks and extractions computes the specified result |
| Base64.PutRest | src/util.c:57-67 | the last one or two bytes, padded |
| Base64.Encode | src/util.c:37-74 | the loop stays in bounds and fills exactly `(len + 2) / 3 * 4` characters with the specified text, then the terminator |
| Base64.Recovers | src/util.c:37-74 | the reference decoder of section 4 of RFC 4648 recovers every sequence of bytes from its text |
| Base64.Exact | src/util.c:37-74 | the texts the decoder accepts are exactly those the encoder produces |

## Left out

- The user interface, terminal launch, port finder and local proxy, the HTTP routes, and the generated askpass script.
- Requests to R2: signing, HTTP and libcurl. Only the answer of the store is modelled; an upload that takes effect but is reported as failed is not.
- The text of JSON: trees stand for it, so escapes and invalid UTF-8 are not modelled; a text that is no JSON is the tree `JNull`.
- AES, PBKDF2 and the drawing of salts and nonces: parameters with the assumptions above.
- File permissions, the backup copy of the configuration, `mkdir`, and `settings.json`, which is written but never read.
- Null arguments and the unrecognised mode of `cm_setup`, which return an error and change nothing.
- Allocation failures and failing thread creation. Most return an error; but the parser then returns the hosts read so far as a success (src/config_parser.c:396-404), and a tunnel is then started without a monitor (src/process_manager.c:359-372).
- Memory access outside locks: `cm_sync` reads the array while another thread may resize it, and the monitor and the reader callback use fields without the lock; each such read is one step here.
- Real time: a timeout is a choice of the environment, and a full pipe that blocks the broadcaster is not modelled.
- The order in which OpenSSH itself reads directives: only this parser is described.
