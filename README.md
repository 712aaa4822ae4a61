# opkssh-renewer, modelled in Dafny

opkssh-renewer keeps an OpenPubkey SSH identity fresh. The identity is a
key `~/.ssh/<name>` and a certificate `~/.ssh/<name>-cert.pub`, both loaded
into the SSH agent.

## The renewers

A renewal either:
- re-adds the cached identity to the agent, when it is younger than the
  maximum age and renewal is not forced; or
- replaces it by the full path:
  1. make a staging directory `~/.ssh/opkssh*`;
  2. run the opkssh login into it;
  3. rename the new `.pub` to `-cert.pub`;
  4. add the new identity to the agent;
  5. drop the old certificate's entry (a failure is only logged);
  6. move the key, then the certificate, into place;
  7. remove the staging directory on every return.

There are two such renewers:
- the library `Renewer` (pkg/opkssh), which adds with no lifetime and makes
  `~/.ssh` first;
- the command (pkg/cmd), which adds with lifetimes: the age less one hour
  when re-adding, the maximum age for a new identity.

The renewers are modelled in these files:
- `environment.dfy`: a `World` object holds the filesystem, the agent's keys,
  a clock and a trace of every external call. An `Oracle` fixes in advance
  what the OS, the login process and the agent answer.
- `renewal.dfy`: the full path, shared by both renewers, as layered methods
  (Stage, Enroll, Swap, Install, Replace). Its contracts state:
  - the exact order of calls;
  - which failure stops where;
  - what the files and the agent hold after each outcome.
- `opkssh.dfy` and `command.dfy`: the two renewers. They differ in the
  short-cut decision, the lifetimes and how the staging directory is made.
- `agent.dfy`: the key checks (`loadKey`, `loadpubkey`, `loadcert`) and the
  agent's add and remove.

## The shells

Two shells show the identity's standing and offer renewal:
- a system-tray application (internal/pkg/tray);
- a windowed application (internal/pkg/gui).

An age of -1 means no identity. Past 24 hours the identity has expired,
and past 23 hours it is close to expiry. The time left is shown as `HHhMMm`.

The shells are modelled in these files:
- `durations.dfy`: Go's duration arithmetic and the `HHhMMm` rendering,
  with its read-back.
- `standing.dfy`: the classification the shells share.
- `tray.dfy` and `gui.dfy`: each shell is a class whose fields are what it
  shows and remembers. Each method is proved against a step function on a
  state record. The lemmas about those functions state:
  - the notify-once behaviour;
  - the renewal gates;
  - what a settings change stores.

## Model

| member | source | states |
|---|---|---|
| Durations.ClockFields | internal/pkg/gui/gui.go:387 | for a span that is not negative, whole hours plus minutes mod 60 (0..59) are the span rounded down to the minute |
| Durations.Decimal | internal/pkg/gui/gui.go:387 | the decimal rendering of a number is non-empty and all digits |
| Durations.ParseDecimal | internal/pkg/gui/gui.go:387 | reading a decimal rendering back gives the number |
| Durations.Pad2Digits | internal/pkg/gui/gui.go:387 | `%02d` of a non-negative number is at least two digits and reads back as the number |
| Durations.HoursMinutes | internal/pkg/tray/tray.go:220 | the `HHhMMm` field is at least four characters and ends in `m` |
| Durations.FormatDuration | internal/pkg/gui/gui.go:382-388 | formatDuration says "missing" exactly for -1 |
| Durations.IndexOf | internal/pkg/gui/gui.go:387 | the first position of a character, or the length when it is absent |
| Durations.HoursMinutesRoundTrip | internal/pkg/gui/gui.go:382-388 | for a span that is not negative, the `HHhMMm` text parses back to its whole hours and minute of the hour |
| Standing.Classify | internal/pkg/gui/gui.go:175-215 | missing exactly at -1, expired exactly past 24h, close exactly in (23h, 24h], valid otherwise: the shells' tests taken in order |
| Standing.TimeLeftShown | internal/pkg/tray/tray.go:218-220 | for a time left in 0..24h the rendered field reads back as hours in 0..24 and minutes in 0..59, the time left rounded down to the minute |
| Standing.HoursWithinDay | internal/pkg/tray/tray.go:218-220 | a time left of at most 24h shows at most 24 hours |
| Host.Join | pkg/opkssh/opkssh.go:135-137 | filepath.Join of a directory and one element: the directory, a separator, then the element |
| Host.AgeOf | pkg/cmd/cmd.go:126-134 | -1 when the file cannot be stat'ed, otherwise its mtime plus the age is now |
| Host.Moved | pkg/opkssh/opkssh.go:242-247 | os.Rename: the destination takes the source's node, the source is gone, every other path is unchanged |
| Host.Pruned | pkg/opkssh/opkssh.go:83 | os.RemoveAll: nothing is left under the directory and everything outside it is unchanged |
| Host.JoinWithin | pkg/opkssh/opkssh.go:135-137 | a path joined under a directory (with any extension) lies within it |
| Host.AgreeOutsideTrans | pkg/opkssh/opkssh.go:79-116 | "unchanged outside the staging directory except these paths" composes across steps |
| Agent.LoadKey | pkg/opkssh/opkssh.go:150-167 | loads exactly a readable ECDSA private key; any other private key algorithm is NotEcdsa |
| Agent.LoadPubKey | pkg/opkssh/opkssh.go:169-183 | loads exactly a public key or certificate, telling which; otherwise unreadable or unparseable |
| Agent.LoadCert | pkg/opkssh/opkssh.go:185-198 | loads exactly a certificate, with its comment; a plain public key is NotCertificate |
| Agent.AddRequest | pkg/opkssh/opkssh.go:200-225 | an add succeeds exactly with an ECDSA key, its own certificate, a reachable agent that accepts, and then registers the certificate with its comment and the lifetime given; otherwise the key's error, else the certificate's, else NoAgent, else KeyCertMismatch, else Refused |
| Agent.RemoveRequest | pkg/opkssh/opkssh.go:227-239 | a remove drops exactly the loaded entry named by a readable key or certificate, on a reachable agent that accepts; otherwise the load error, else NoAgent, else Refused, else NotLoaded |
| Agent.LifetimeOf | pkg/cmd/cmd.go:97 | uint32(life.Seconds()): whole seconds truncated toward zero, within the uint32 range; no constraint exactly when the span is under one second either way; unspecified exactly when at most -1s, beyond the uint32 range, or from 2^24 s on with a fraction of a second |
| Environment.StagingDir | pkg/opkssh/opkssh.go:252-260 | the directory os.MkdirTemp(parent, "opkssh*") makes lies in parent and is named "opkssh" followed by the random part |
| Environment.WithParent | pkg/opkssh/opkssh.go:253-256 | os.MkdirAll changes only the parent, never an existing one, and leaves it a directory exactly when mkdirTemp's parent check passes |
| Environment.World.MakeTempDir | pkg/opkssh/opkssh.go:252-260 | mkdirTemp: succeeds exactly when the parent is (or os.MkdirAll makes it) a directory, os.MkdirTemp is allowed and the name is free; then a new empty directory; a parent os.MkdirAll made stays made even when os.MkdirTemp fails; nothing else changes |
| Environment.World.RunLogin | pkg/opkssh/opkssh.go:139-148 | the login either fails leaving the files alone, or writes the key and its .pub stamped now |
| Environment.World.RenameFile | pkg/opkssh/opkssh.go:93-95 | a rename succeeds exactly when the source exists and the OS allows it, and then moves it |
| Environment.World.AddToAgent | pkg/cmd/cmd.go:73-99 | addToAgent loads the key and its -cert.pub and registers the result of AddRequest, or leaves the agent alone |
| Environment.World.RemoveFromAgent | pkg/cmd/cmd.go:101-113 | removeFromAgent drops the entry RemoveRequest names, or leaves the agent alone |
| Environment.World.RemoveTree | pkg/opkssh/opkssh.go:83 | the deferred RemoveAll prunes the staging directory |
| Renewal.Reuses | pkg/opkssh/opkssh.go:65-76 | the cached identity is re-added exactly when 0 <= age < maximum age and renewal is not forced; a missing identity (age -1) is always replaced |
| Renewal.CallsSplit | pkg/opkssh/opkssh.go:79-116 | the calls of a run are the temp dir, then the steps taken, then the cleanup, unless the temp dir failed |
| Renewal.AddComesFirst | pkg/opkssh/opkssh.go:97-114 | with the identity apart from staging, every agent removal and every rename into place comes after the new identity's add; a run that stops at the temp dir, login or certificate rename touches the agent not at all |
| Renewal.RenameIdentity | pkg/opkssh/opkssh.go:241-250 | the key moves first; a failed key move stops before the certificate; a failed certificate move leaves the key moved (a torn pair) |
| Renewal.StagingLayout | pkg/opkssh/opkssh.go:87-93 | the staged key, .pub and -cert.pub are three distinct paths in the staging directory |
| Renewal.Stage | pkg/opkssh/opkssh.go:85-95 | login fails exactly on a failed login; the certificate rename fails exactly when its rename is refused; on success both staged files exist; nothing outside staging changes |
| Renewal.Enroll | pkg/opkssh/opkssh.go:97-108 | the new identity is added; the old entry is removed only after a successful add, and a failed removal does not stop the run |
| Renewal.Swap | pkg/opkssh/opkssh.go:97-116 | the add fails exactly when the staged identity is refused, then nothing changes; otherwise the agent holds the new entry less the old one and the outcome depends only on the two renames |
| Renewal.MovedPair | pkg/opkssh/opkssh.go:241-250 | moving the staged pair out of staging changes, outside staging, only the two destinations, which take the staged nodes |
| Renewal.Install | pkg/opkssh/opkssh.go:83-116 | after the temp dir: the calls in order, the staging directory gone, where the run stopped, and the files and agent for each outcome |
| Renewal.FramesWiden | pkg/opkssh/opkssh.go:79-83 | the outcome account still holds when measured from before the temp dir (and ~/.ssh) was made |
| Renewal.Replace | pkg/opkssh/opkssh.go:78-116 | the whole full path: the temp dir fails exactly when it cannot be made, and then nothing changes but a parent os.MkdirAll made; otherwise the calls in order, staging removed, and the account of files and agent |
| Renewal.CanonicalApart | pkg/opkssh/opkssh.go:79-87 | an identity name not beginning with "opkssh" is apart from every staging directory |
| Renewal.DifferAt | pkg/opkssh/opkssh.go:79-87 | a path that differs from a directory inside its length is not within it |
| Opkssh.LoggerAfter | pkg/opkssh/opkssh.go:43-46 | the options leave the last option's logger, or the default when there are none |
| Opkssh.LoggerAfterStep | pkg/opkssh/opkssh.go:43-46 | applying options one at a time is applying the prefix so far |
| Opkssh.Renewer.constructor | pkg/opkssh/opkssh.go:28-34 | the defaults: the given name, life and force, and a discarding logger |
| Opkssh.Renewer.Apply | internal/pkg/opkssh/options.go:7-11 | WithLogger replaces the logger |
| Opkssh.Renewer.Name | pkg/opkssh/opkssh.go:131-133 | the name the renewer was made with, which identityPath joins under `<home>/.ssh` |
| Opkssh.Renewer.IdentityPath | pkg/opkssh/opkssh.go:135-137 | `<home>/.ssh/<name>`: within `<home>/.ssh`, ending in the name |
| Opkssh.Renewer.IdentityAge | pkg/opkssh/opkssh.go:120-128 | -1 when the identity cannot be stat'ed, otherwise now minus its mtime |
| Opkssh.Renewer.Run | pkg/opkssh/opkssh.go:51-117 | no home: error, nothing done; fresh and not forced: exactly one add of the identity with no lifetime and nothing else; otherwise the full path with no lifetime, making ~/.ssh if missing |
| Opkssh.NewRenewer | pkg/opkssh/opkssh.go:27-49 | no renewer exactly when the home directory is not found; otherwise the defaults with the options applied in order |
| Opkssh.RunIdentityApart | pkg/opkssh/opkssh.go:62-87 | with an unchanged home and a name not beginning with "opkssh", Run's identity is apart from its staging directory |
| Command.ReaddLifetime | pkg/cmd/cmd.go:199 | for an age from 1h01s up to 2^24 s past one hour (or up to the uint32 bound when a whole number of seconds), the lifetime is the age less one hour in whole seconds; an age a second or more under one hour has no defined lifetime |
| Command.DefaultLifetime | pkg/cmd/cmd.go:155 | the default maximum age reaches the agent as 82800 seconds |
| Command.RootCommand.constructor | pkg/cmd/cmd.go:135-145 | the zero-valued command before its flags are bound |
| Command.RootCommand.Init | pkg/cmd/cmd.go:147-160 | a failed embedded Init binds nothing; otherwise name "id_opkssh", maxage 23h, force and debug off |
| Command.RootCommand.Run | pkg/cmd/cmd.go:177-244 | no home: error, nothing done; fresh and not forced: one add with the age less an hour; otherwise the full path in the existing ~/.ssh, adding with the maximum age |
| Tray.Status | internal/pkg/tray/tray.go:208-221 | the status item says "Identity Missing" exactly for -1 and "Identity Expired" exactly past 24h; otherwise "Identity has … left" |
| Tray.StatusText | internal/pkg/tray/tray.go:223-236 | the tooltip says "No identity found" exactly for -1 and "Identity has expired" exactly past 24h; otherwise "Identity has … until expiry" |
| Tray.StatusTexts | internal/pkg/tray/tray.go:208-236 | status and statusText follow the same three-way split; for an identity that exists and has not expired both carry the same time left, which reads back in range |
| Tray.TickStep | internal/pkg/tray/tray.go:110-151 | one tick: texts refreshed; Renew enabled exactly past 23h; the expired test wins over the near one; a notification is sent only while its flag is clear, and the flag is set only on delivery |
| Tray.TicksTaken | internal/pkg/tray/tray.go:115-151 | the ticker takes ticks up to and including the first one past 23h |
| Tray.TickerShowsLast | internal/pkg/tray/tray.go:102-154 | both tickers (TickerRun as written, TickerRunAll with every tick) leave the tray showing the last tick they took, Renew enabled exactly when that tick is past 23h, and Force untouched; as written that tick is the first past 23h |
| Tray.TickerStopsEarly | internal/pkg/tray/tray.go:123-147 | as written, the ticks after the first one past 23h have no effect |
| Tray.AsWrittenMissesExpiry | internal/pkg/tray/tray.go:115-151 | a near-expiry tick followed by an expired one: as written the expiry is never notified, with every tick applied it is |
| Tray.ContinuingReportsExpiry | internal/pkg/tray/tray.go:115-129 | with every tick applied, the expiry flag ends set exactly when it was set or some expired tick delivered, and the expiry is delivered at most once |
| Tray.ContinuingReportsNearExpiry | internal/pkg/tray/tray.go:132-147 | the same for the near-expiry notification |
| Tray.RenewStep | internal/pkg/tray/tray.go:171-206 | unforced under 23h (missing included): no change; otherwise always ForceRenew, both items end enabled; failure keeps the flags; success clears both flags and refreshes the texts |
| Tray.RenewLeavesRenewEnabled | internal/pkg/tray/tray.go:177-202 | as written, after a successful renewal Renew is enabled, and clicking it is a no-op |
| Tray.RenewStepCorrected | internal/pkg/tray/tray.go:199-202 | with the re-enable on the failure path only, a success leaves Renew disabled and Force enabled, as the ticker's rule for a fresh identity says |
| Tray.Application.constructor | internal/pkg/tray/tray.go:37-72 | nothing notified, no renewal made |
| Tray.Application.OnReady | internal/pkg/tray/tray.go:78-100 | the texts from the age, Renew enabled exactly when the age is at least 23h, Force enabled |
| Tray.Application.Tick | internal/pkg/tray/tray.go:110-151 | one tick is TickStep, and the goroutine returns exactly past 23h |
| Tray.Application.UpdateTicker | internal/pkg/tray/tray.go:102-154 | the ticker loop as written: the ticks TicksTaken counts, applied in order |
| Tray.Application.UpdateTickerContinuing | internal/pkg/tray/tray.go:102-154 | the corrected loop: every tick applied in order |
| Tray.Application.Renew | internal/pkg/tray/tray.go:171-206 | renew as written is RenewStep |
| Tray.Application.RenewCorrected | internal/pkg/tray/tray.go:171-206 | the corrected renew is RenewStepCorrected |
| Gui.AgeLabel | internal/pkg/gui/gui.go:299-322 | the label is "missing" exactly for -1, Danger exactly when missing or past 24h, Warning exactly in (23h, 24h] |
| Gui.TrayTooltip | internal/pkg/gui/gui.go:283-297 | the tooltip's missing text exactly for -1 and its expired text exactly past 24h |
| Gui.StatusLine | internal/pkg/gui/gui.go:175-215 | update's status line: the no-action text exactly for a valid identity, "No identity found" exactly for a missing one |
| Gui.LabelAndTooltip | internal/pkg/gui/gui.go:283-322 | the label says "missing" exactly for a missing identity; it is Danger exactly when missing or expired and Warning exactly when close; label and tooltip carry the same time left, which reads back in range |
| Gui.Raise | internal/pkg/gui/gui.go:181-210 | a tick sets its own standing's flag and keeps the others |
| Gui.Created | internal/pkg/gui/gui.go:83-103 | the names and start-hidden come from the preferences with fallbacks "id_opkssh" and false; nothing notified |
| Gui.UpdateStep | internal/pkg/gui/gui.go:170-216 | one tick: label, tooltip and status from the standing; a trouble's notification is sent only while its flag is clear; settings and controls untouched |
| Gui.UpdateShowsLast | internal/pkg/gui/gui.go:161-218 | after update's loop (UpdateRun) the window shows the last tick's status line, label and tooltip |
| Gui.UpdateNotifiesOnce | internal/pkg/gui/gui.go:175-215 | over any run of ticks each trouble's flag ends set exactly when it was set or seen, and it is notified exactly once when the flag goes from clear to set |
| Gui.UpdateKeepsSettings | internal/pkg/gui/gui.go:161-218 | ticks change no control, setting or renewal |
| Gui.RenewProceeds | internal/pkg/gui/gui.go:227-237 | forced always proceeds; unforced proceeds exactly when update does not call the identity valid, or at exactly 23h |
| Gui.RenewStep | internal/pkg/gui/gui.go:220-281 | force unreadable: only reported; not due and not forced: "Renewal not required yet" and no renewer call; otherwise ForceRenew if forced else Renew, both controls end enabled; failure keeps the flags and force; success clears force and all flags and refreshes label and tooltip |
| Gui.RenewRearms | internal/pkg/gui/gui.go:276-279 | after a successful renewal a trouble is notified again by the next tick that sees it |
| Gui.SubmitStep | internal/pkg/gui/gui.go:403-446 | the form always closes; a failed read stops with an error; a changed name makes a new renewer, and when that fails nothing is stored; then the name is stored and shown, start-hidden stored unless its read fails; the names stay consistent |
| Gui.CancelStep | internal/pkg/gui/gui.go:447-453 | the form is reset from the preferences with their fallbacks |
| Gui.SubmitThenCancel | internal/pkg/gui/gui.go:403-453 | after a submit without failure, cancelling leaves the form as submitted |
| Gui.App.constructor | internal/pkg/gui/gui.go:83-103 | the state Created describes |
| Gui.App.SetAgeLabel | internal/pkg/gui/gui.go:299-322 | setagelabel sets exactly the label text and importance |
| Gui.App.SetTrayTooltip | internal/pkg/gui/gui.go:283-297 | setsystraytooltip sets exactly the tooltip |
| Gui.App.UpdateTick | internal/pkg/gui/gui.go:170-216 | one tick of update is UpdateStep |
| Gui.App.Update | internal/pkg/gui/gui.go:161-218 | the ticker loop applies every tick in order |
| Gui.App.Renew | internal/pkg/gui/gui.go:220-281 | renew, with its goroutine run to completion, is RenewStep |
| Gui.App.Submit | internal/pkg/gui/gui.go:403-446 | OnSubmit is SubmitStep |
| Gui.App.Cancel | internal/pkg/gui/gui.go:447-453 | OnCancel is CancelStep |

## Left out

- Logging (slog): PreRun's logger set-up and the debug flag's effect. Log lines are not modelled.
- The opkssh login process and its 30-second timeout. It is an oracle that either fails or writes the key and its `.pub`.
- Key parsing and the ssh-agent wire protocol. A file's content is already classified, and the agent is a map from public key blob to entry.
- filepath.Join's cleaning. Paths are joined with "/" and are not normalised.
- Symbolic links, permissions, and os.Rename onto a directory. A refused rename is an oracle choice.
- os.MkdirTemp's random names and retries. The suffix is an oracle choice, and a name already taken stands for giving up.
- The error of the deferred os.RemoveAll, which both renewers discard. It is modelled as always removing the tree.
- The float arithmetic of Duration.Hours() and Minutes(). Integer nanoseconds with truncating division are used; that is exact for spans under about 100 days. The shells show at most 24 hours left, unless the identity's mtime lies far in the future.
- Each shell calls IdentityAge several times within one tick or one click. The model takes one age per tick and one per renewal step (before and after).
- Goroutines, tickers, the done channel, fyne.Do and the unused mutex. One tick, one click or one renewal is one sequential step, and a renewal goroutine runs to completion before anything else.
- Widget construction, icons, window hiding, and the "Started" notification in OnStarted. They are UI.
- The notification back-ends. Only titles are recorded. The tray records whether beeep delivered; the windowed shell's notifications cannot fail.
- The tray's New and eventloop. Menu clicks are modelled as calls of Renew.
- The internal renewer the shells call (NewRenewer with two arguments, Renew, ForceRenew, IdentityAge). Only internal/pkg/opkssh/options.go of that package is available, so the renewer is seen only through the ages it reports, whether its renewal failed, and whether its construction found a home directory.
- The file declaring pkg/opkssh's RenewerOption type is not part of this model. The option is modelled after internal/pkg/opkssh/options.go, whose WithLogger replaces the logger.
- pkg/sshagent (the agent socket or named pipe) is not part of this model. Connecting is an oracle answer.
- pkg/gui/gui.go and the cmd/*/main.go entry points. They are window wiring and process start-up.
- Renewal.Replace: the agent and canonical-file parts of its account are stated only when the identity is apart from the staging directory. Renewal.CanonicalApart proves that for every name not beginning with "opkssh"; a name that does could be the staging directory itself.
- Opkssh.Renewer.Run: the claims about the agent and the canonical files assume the home directory found at construction is the one found again at run time. The source looks it up twice, and a change in between is not followed.
- Command.ReaddLifetime: Go's uint32 of a negative number of seconds is implementation-defined. An identity under one hour old is re-added with an unspecified lifetime.
- Agent.LifetimeOf: a lifetime beyond the uint32 range is unspecified for the same reason. From 2^24 seconds (about 4660 hours) on, Duration.Seconds()'s float64 sum can round a fraction just under one second up to the next second; such a lifetime with a fraction of a second is left unspecified, while a whole number of seconds stays exact.
- Environment.World.MakeTempDir: os.MkdirAll also creates missing ancestors of ~/.ssh; the model creates only ~/.ssh itself and takes the home directory to exist.

## Findings

| source | as written | input that shows it | evidently intended | confidence | as-written member | corrected member |
|---|---|---|---|---|---|---|
| internal/pkg/tray/tray.go:123-147 | After a tick past 23 hours, updateTicker's `return` ends the ticker goroutine, whether or not the notification was delivered | A tick at 23h01m, then one at 24h01m, both notifications deliverable: the second tick is never taken, so the expiry is not notified and the status texts stop updating | `continue`: keep ticking, so the texts stay current and the expiry is notified once | not executed; high | Tray.AsWrittenMissesExpiry | Tray.ContinuingReportsExpiry |
| internal/pkg/tray/tray.go:178-202 | renew disables Renew after a success (line 202), but the deferred Enable runs after it, so both menu items end enabled | A forced renewal that succeeds with the new identity 0 hours old: Renew ends enabled, although clicking it does nothing until the identity is 23 hours old | After a success Renew stays disabled and Force enabled; after a failure both are re-enabled | not executed; medium | Tray.RenewLeavesRenewEnabled | Tray.RenewStepCorrected |
