# Verification model of the Terrarium's control core

Terrarium runs an installation: a Room of light and sound fixtures, the devices people
carry, and the Bits (games) played between them. This project models the parts of its
Python control code where mistakes are hardest to see, and proves what they are for. All
of it is in Dafny; `dafny verify dfyconfig.toml` checks everything.

Most modules come in two layers. A value-level specification says what a call does to a
state, and lemmas prove what that means over all inputs and all runs. Beside it a class or
method with the source's own loops and updates is proved to do exactly what the
specification says, including what it leaves unchanged and what it does when something
raises.

**Timed music.** `Midi`, `MidiParser`, `MidiFile`: the byte grammar of Standard MIDI Files
(RP-001), the parser's loops, and both directions of "accepted exactly when written by a
legal writer". `Rounding`, `StableSorting`, `Pairing`, `Windows`, `Sequencer`,
`SequencerRuns`: the look-ahead sequencer against its endless unrolled timeline, the chase
of held notes, and exactly-once emission over whole runs. `TimedQueue`: the purgeable queue
at the other end. `HungNotes`, `OneShots` and `SilentFiles` join them: after any interleaving
a disabled track ends silent, a one-shot that plays itself out ends as its file does, and its
part is silent after every run exactly when its file ends silent. `Performances` and
`SequencerSounds` tell the parser's and the sequencer's results without the specification's
own functions: what each byte of a file says, and what each call sends, byte for byte.

**Registration and lifecycle.** `Registration`, `RegistrationState`, `Engine`,
`GameServer`: reservations, assignments, counts and capacities over whole lives of Bits.
`Answers` says from the declared roles alone what each join, jam and handshake comes to.
`Mutes`: the mute latch the engine and the agent each keep, while devices bind to fixtures
in between.

**Resources, threads, teardown.** `ArtNetSink`: a two-thread protocol at the granularity of
its lock. `Voices`, `VoiceCalls`, `AudioBridge`: sixteen synthesizer channels among devices and
passing notes, with any voice call allowed to raise. `Teardown`, `Terrarium`, `TerrariumState`:
bringing a Room up and down with failures anywhere.

**Geometry and lanes.** `Geometry`, `NodeTree`: glTF 2.0 node transforms, bounding boxes and
marker trees. `Lanes`, `LaneMethods`, `Gestures`: gesture streams sharing MIDI lanes, from
the streams declared to the cues emitted. `RoomProfile`: the pixel layout of a Room.

## Where the code does not do what it says

Each is proved as an exact condition, not only shown by an example.

- A one-shot that has switched itself off at its end is no longer stopped by `disable`, so a
  key its file never releases sounds on (`OneShots.AnUnreleasedKeyHangs`). Lined up at its
  start, once drained past its last event its part is silent exactly when its file's own
  messages, played from silence, end silent (`OneShots.PlayedOutEndsAsItsFile`); and however
  it is played, restarted and dropped, every run leaves it silent exactly for such a file
  (`SilentFiles.AlwaysEndsSilentExactly`), one that releases every key it strikes and lifts
  every pedal it puts down (`SilentFiles.EndsSilentExactly`).
- A walk-up's or a start's solo role is taken without asking for a place. A Bit may declare a
  role of that name itself, and if it is bounded, or not of the JAM class, a jam overfills or
  misfiles it (`Registrations.SoloRoleOverfills`). A jam keeps the books exactly when its role
  has a place (`Registrations.JamBalancesExactly`), and every jam does exactly when the
  Bit's table has no such role, which a load could check (`Registrations.SoloSafeExactly`).
- `run` keeps the counts exactly when no device both reserves and holds a role
  (`Registrations.MovedBalancesExactly`). Two joins of SETUP can break that: one that re-arms
  a fixture another device stands for, and one whose arming window expires between the two
  readings `handshake` takes of it, which grants the ROOM role and binds nothing
  (`Engines.BindKeepsRoomHoldersExactly`, `Engines.UnsafeJoinsLeakACount`). Each call of a
  Bit's life keeps the books exactly when it is neither of these nor a jam without a place
  (`Engines.StepKeepsSoundExactly`, `Engines.LivesAreSoundExactly`).
- A grant, a note, a tick, a release or a shutdown of the audio bridge can lose or double a
  channel when a voice call or a lane raises; `Voices.StepConservesExactly` says precisely
  when each does not.
- `ArcoProcess.start` and `SimulatorProcess.start` spawn first and write the spawn record
  after, and the caller pushes the teardown step last. An exception in between, such as a
  record that cannot be written, leaves that process running with no Room
  (`Terrariums.UnwrittenRecordOrphans`, `Terrariums.LoadOrphansExactly`); over any run nothing
  is left running exactly when no exception falls there
  (`Terrariums.RunsLeaveNoOrphanExactly`). An unload in which the binding store fails to save,
  or clearing the devices raises, leaves the Terrarium in ROOM_UNLOADING, which no later call
  can leave (`Terrariums.UnloadStrandsExactly`). Clearing the devices is a dictionary clear and
  guarded notifications, so only an interrupt can raise there.
- Where two stream domains touch, the documentation gives the lane to the lower domain; the
  code gives it to the one declared first (`Lanes.FirstDeclaredWins`). The overlap check does
  not ask that a lane's streams read one argument, and without that two streams can claim it
  (`Lanes.OneClaimExactly`). Below its domain, an output taking the magnitude first gives
  its low edge's cue, over every range it may map onto, exactly when the magnitude is not
  past that edge again (`Lanes.EdgeClampExactly`, `Lanes.MagnitudeLeavesItsEdge`).
- A device and its fixture's token read the same mute exactly when no device stands for two
  fixtures (`Mutes.DeviceAndTokenAgreeExactly`).
- A glTF matrix with another bottom row than 0 0 0 1 does not compose
  (`Geometry.ComposesExactly`).

## Model

| member | source | states |
|---|---|---|
| `MidiParser.Vlq` | control/midifile.py:57-67 | the number at `pos`, as base-128 digits spell it, and the next position, or a refusal, with nothing at or past `end` read |
| `MidiTracks.QuantityReadBack` | control/midifile.py:57-67 | every legal variable-length quantity reads back as its own digits, whatever follows it |
| `MidiTracks.QuantityWasWritten` | control/midifile.py:57-67 | an accepted quantity is the encoding of its digits, so no bytes are skipped or invented |
| `MidiTracks.NumberReadBack` | control/midifile.py:57-67 | the bytes of any number below 2^28, in any width it fits, read back as that number, and whatever reads at all is the bytes of the number it reads as |
| `MidiParser.Body` | control/midifile.py:57-67 | a length-prefixed body and the position after it; a length past the end is refused |
| `MidiParser.ParseEvent` | control/midifile.py:79-127 | one event as the grammar reads it: delta time, status or running status, data, and the next position |
| `MidiParser.ParseTrack` | control/midifile.py:70-132 | the byte loop returns exactly the specification's reading of the slice it was given |
| `MidiTracks.EventsReadBack` | control/midifile.py:79-127 | any legal event list, with any permitted choice of running or explicit status, reads back from its bytes |
| `MidiTracks.EventsWereWritten` | control/midifile.py:79-127 | any byte string the loop reads is the encoding of a legal event list |
| `MidiTracks.TrackAccepted` | control/midifile.py:70-132 | the accepted tracks are exactly the encodings of legal event lists, each read as its meaning: messages at prefix-sum ticks, velocity-0 note-ons as note-offs, tempo, name and end mark |
| `Performances.EveryTrackPerforms` | control/midifile.py:70-132 | every legal event list is some performance, items at absolute ticks, written down |
| `Performances.TrackIsPerformed` | control/midifile.py:70-132 | a track that writes a performance down, its gaps spelled in base 128, parses to each channel message at its own tick, velocity-0 note-ons as note-offs on the same channel, the last tick, the first tempo and the first name; only a tempo of zero is refused |
| `MidiFiles.ParseMidi` | control/midifile.py:135-180 | the file loop returns exactly the specification's reading, chunk by chunk |
| `MidiFiles.FileReadBack` | control/midifile.py:135-180 | every legal file reads back as its meaning: division, first tempo and name, merged events, end beat |
| `MidiFiles.FileWasWritten` | control/midifile.py:135-180 | every accepted file is the encoding of a legal one |
| `MidiFiles.FileAccepted` | control/midifile.py:135-180 | both directions together: accepted files are exactly the encodings of legal files |
| `Performances.FileIsPerformed` | control/midifile.py:135-180 | a file whose tracks write performances down parses to their messages on one timeline, ticks over division, the latest end, and the first track's tempo and name that has one |
| `MidiFiles.MergingIsStable` | control/midifile.py:165-180 | merging the tracks only re-orders, by tick, and keeps track and file order within a tick |
| `MidiFiles.ParsedEvents` | control/midifile.py:135-180 | an accepted file's events are in beat order from 0, channel messages with seven-bit data, and hold no velocity-0 note-on |
| `MidiFiles.LoopBeats` | control/midifile.py:43-47 | the fewest whole bars, at least one, that reach the end |
| `Rounding.Round` | control/sequencer.py:62-64 | nearest integer, halves to even |
| `Rounding.SnapIsNearest` | control/sequencer.py:62-64 | a snapped beat is the nearest multiple of a thousand-millionth |
| `Rounding.SnapIsMonotone` | control/sequencer.py:62-64 | snapping to the grid keeps order |
| `Rounding.SnapIsIdempotent` | control/sequencer.py:62-64 | a snapped beat stays where it is |
| `Pairing.DropStruckAtEnd` | control/sequencer.py:94-114 | the loop is the trim its properties are proved about |
| `Pairing.PairNotes` | control/sequencer.py:117-129 | the loop over open-note queues is the pairing its properties are proved about |
| `Pairing.TrimmingCommutesWithPairing` | control/sequencer.py:94-129 | pairing the trimmed events gives exactly the original pairs struck before the loop length, in order: no kept note loses its note-off or takes another's |
| `Pairing.TrimKeepsOrder` | control/sequencer.py:94-114 | trimming keeps events in order and keeps a note-on exactly when it is struck inside the loop |
| `Pairing.TrimExactly` | control/sequencer.py:94-114 | the trim keeps, in order, every event but the note-ons struck at or past the length and the note-offs that release them, matched first with first by key |
| `Pairing.PairsInOrder` | control/sequencer.py:117-129 | a key's pairs are its note-ons with its note-offs in order, first with first; a note-off with nothing open pairs with nothing, and the note-ons left over stay open |
| `Windows.BisectLeft` | control/sequencer.py:276-297 | how many events lie before a beat |
| `Windows.Slice` | control/sequencer.py:276-297 | two bisections give exactly one iteration's events in the window |
| `Windows.Window` | control/sequencer.py:276-297 | the efficient window equals the filter of the endless unrolled timeline |
| `Windows.UnrolledIsWindow` | control/sequencer.py:276-297 | that filter lists every occurrence of [lo, hi), each once, in grid order |
| `Windows.WindowIsUnique` | control/sequencer.py:276-297 | there is only one such list, so the window is determined by its bounds |
| `Windows.WindowsTile` | control/sequencer.py:253-297 | adjacent windows concatenate to the window of the joined range |
| `Sequencers.Sequencer.AddTrack` | control/sequencer.py:144-164 | the new track is stored ready to play; a loop with `skip_beats` is refused and changes nothing |
| `Sequencers.NewTrackIsValid` | control/sequencer.py:144-164 | a track built from a parsed file is in order, with its notes inside the loop |
| `Sequencers.Sequencer.Start` | control/sequencer.py:166-174 | beat 0 is set, every track is reset, the rest is unchanged |
| `Sequencers.Sequencer.Enable` | control/sequencer.py:191-215 | the new state and the cues are those of the specification; an unknown or one-shot track is refused and changes nothing |
| `Sequencers.Sequencer.Chase` | control/sequencer.py:205-215 | the re-struck notes and their cues are those `ChaseIsExact` is about |
| `Sequencers.Sequencer.Disable` | control/sequencer.py:217-229 | the purge, the releases and the pedal, as specified; refusal changes nothing |
| `Sequencers.Sequencer.PlayOnce` | control/sequencer.py:231-243 | the one-shot is lined up at its beat, as specified; refusal changes nothing |
| `Sequencers.Sequencer.SetMaster` | control/sequencer.py:245-251 | one scaled volume for every track, in the order added |
| `Sequencers.Sequencer.Advance` | control/sequencer.py:253-274 | the merged cues and every track's new cursor, as specified |
| `Sequencers.StepIsValid` | control/sequencer.py:166-297 | every call keeps the sequencer's invariant |
| `SequencerRuns.TwoIterationsSuffice` | control/sequencer.py:204-215 | a note under way in any iteration is under way in iteration k or k - 1, however long it rings |
| `SequencerRuns.ChaseIsExact` | control/sequencer.py:191-215 | `enable` re-strikes exactly the keys under way, each once |
| `SequencerRuns.EmittedExactlyOnce` | control/sequencer.py:253-297 | over any run a playing track's advances emit, end to end, exactly its timeline from its cursor to the last window's end, each event once and in order; a loop never drops out, a one-shot not before it has finished |
| `SequencerRuns.EnabledLoopPlaysOnce` | control/sequencer.py:191-297 | from an `enable` at beat b, exactly the loop's occurrences in [b, last end) |
| `SequencerRuns.OneShotFinishes` | control/sequencer.py:231-274 | a one-shot that has switched itself off has emitted every event it has |
| `SequencerRuns.AdvanceMergesTracks` | control/sequencer.py:253-274 | one tick's cues are in grid order and hold, for each track, exactly its own in its own order |
| `SequencerSounds.AdvanceSounds` | control/sequencer.py:253-313 | byte for byte: each playing track sends each event since its cursor up to the look-ahead, once, in order, with its own kind, data and tag, at its grid beat's time, volumes under the master; the cues are merged by time, the record and volume are kept, a finished one-shot goes off, and nothing else is sent |
| `SequencerSounds.EnableSounds` | control/sequencer.py:191-215 | the track's volume first, then at the same time each note under way, one a key, with its own status, key and velocity; cursor and record move accordingly |
| `SequencerSounds.EnableRefusedExactly` | control/sequencer.py:191-203 | accepted exactly for a loop once started; one already playing goes on as it was, with no cue |
| `SequencerSounds.DisableSounds` | control/sequencer.py:217-229 | one purge, one release of each struck key in ascending order, one pedal-up, and the track off; nothing at all when it is off |
| `SequencerSounds.PlayOnceSounds` | control/sequencer.py:231-243 | dropped first if playing, then lined up at the first whole beat not before now, with its file's opening volume sent for that beat |
| `SequencerSounds.MasterSounds` | control/sequencer.py:245-251 | one CC 7 a track, in the order added: its volume times the level, rounded, between 0 and 127 |
| `SequencerSounds.StartSounds` | control/sequencer.py:166-174 | the time given is beat 0; each track is off, with nothing on record, at its file's opening volume, and otherwise as it was |
| `SequencerSounds.AddTrackSounds` | control/sequencer.py:144-164 | a loop is the fewest whole bars that reach the file's end, without what is struck past it; a one-shot is what follows the lead-in, moved down by it; each opens at its first volume |
| `TimedQueues.TimedQueue.Push` | control/timed_queue.py:55-83 | the item, its clamped due time, the clamp count and the bounded lateness samples |
| `TimedQueues.PushExactly` | control/timed_queue.py:55-83 | last in, for its time, or for now when it has none or it has passed; each time given is sampled for lateness, the newest 20000 kept, and the late ones counted |
| `TimedQueues.TimedQueue.Due` | control/timed_queue.py:85-92 | what is due comes out in (due, insertion) order and only the rest stays |
| `TimedQueues.TimedQueue.Purge` | control/timed_queue.py:94-101 | exactly the matching items go |
| `TimedQueues.TimedQueue.NextDue` | control/timed_queue.py:103-107 | the earliest due time, None only when empty |
| `TimedQueues.Sort` | control/timed_queue.py:85-92 | a permutation in strict (due, insertion) order |
| `TimedQueues.StepIsFaithful` | control/timed_queue.py:55-107 | each call keeps every payload in exactly one place and past releases before all pending ones |
| `TimedQueues.RunIsFaithful` | control/timed_queue.py:55-107 | over any run at non-decreasing times each payload is released once, purged once or pending, and the drains concatenate in order |
| `HungNotes.ReleasesSilence` | devicelink/agent.py:1899-1927 | on a model voice, playing messages that sound nothing of a part, a release of each key and a pedal-up silences it, whatever other parts play |
| `HungNotes.DispatchIsExact` | devicelink/agent.py:1899-1917 | every message reaches the queue byte for byte under its track's tag, for its own time or for now when that has passed |
| `HungNotes.RunKeepsInv` | control/sequencer.py:166-274 | in every reachable state each sounding key of a playing track is known to be struck or has its release queued |
| `HungNotes.DisableDrops` | control/sequencer.py:217-229 | one `disable` leaves releases for every struck key queued, and nothing else of the track |
| `HungNotes.DroppedThroughout` | control/sequencer.py:191-272 | nothing that happens after, short of starting the track again, takes those releases away or sounds the track |
| `HungNotes.StartingIsJustStarted` | control/sequencer.py:166-174 | a `start()` of any sequencer with tracks on distinct parts, the speaker silent and its queue empty, is where those runs begin |
| `HungNotes.StagesTell` | control/sequencer.py:191-272 | after any run since `start()` a track never started or long dropped is silent, only a playing one is on, and only a one-shot is ever played out by itself |
| `HungNotes.NoHungNote` | control/sequencer.py:191-272 | after any interleaving, a `disable` of a loop, or of a one-shot that has not played itself out, leaves its part silent with the pedal up once a drain passes the time it was dropped |
| `OneShots.PlayedOutEndsAsItsFile` | control/sequencer.py:231-274 | a one-shot that has switched itself off ends, once drained past its last event, with the voice its file's messages make of the one it started from; from silence, silent exactly when the file ends silent |
| `OneShots.IdleLinesUpExactly` | control/sequencer.py:231-243 | a `play_once` of an idle one-shot starts from the voice that what still waits of it leaves, and lines it up exactly when that is due in order by its first beat |
| `OneShots.RestartLinesUpExactly` | control/sequencer.py:231-243 | a `play_once` of a playing one-shot has it come to silence first, and lines it up exactly when what drops it is due by its first beat |
| `SilentFiles.EndsSilentExactly` | control/sequencer.py:253-274 | a file played from silence ends silent exactly when each key it strikes it later releases and each pedal it puts down it later lifts |
| `SilentFiles.AlwaysEndsSilentExactly` | control/sequencer.py:191-274 | after every timely run since `start()`, once the one-shot is off and all that waits for it has drained, its part is silent: exactly when its file ends silent |
| `OneShots.AnUnreleasedKeyHangs` | control/sequencer.py:217-229 | a concrete one-shot of one note-on: played out, drained and then disabled, its key still sounds |
| `Registrations.ValidateBalances` | control/registration.py:73-99 | keeps the books; a denial changes nothing, a repeat changes nothing, a grant adds one reservation of a scored role of that node |
| `Answers.CapIsPlaces` | control/registration.py:53-63 | `n` devices are within the cap exactly when they are within the declared maximum, if any, and, when every scored role is bounded, no more than those roles' places |
| `Answers.ValidateExactly` | control/registration.py:73-99 | a device without a reservation is granted exactly when its node lists a scored role with a place free and the Bit admits one more; it gets the first such role listed and one place of it, and nothing else changes; a refusal says "no such node" exactly when the node lists nothing, or lists no scored role of a Bit that would admit one more |
| `Registrations.RoomJoinBalances` | control/registration.py:101-120 | keeps the books; a denial changes nothing, a grant assigns a ROOM role of the node |
| `Answers.RoomJoinExactly` | control/registration.py:101-120 | decided by the first ROOM role the node lists: none is no such node; a device that does not hold it needs a place of it free |
| `Registrations.AssignBalancesExactly` | control/registration.py:122-132 | an assignment, of whatever role, keeps the books exactly when the device holds the role already, the table's own of that name is of its class with a place left, or a new one is not of capacity 0 |
| `Answers.AssignExactly` | control/registration.py:122-132 | nothing changes for a holder; otherwise its places are given back, it holds this role alone with one place of it, and a role of a new name joins the table last |
| `Registrations.ReleaseBalances` | control/registration.py:151-161 | keeps the books and takes exactly that device out of both maps |
| `Answers.ReleaseExactly` | control/registration.py:151-161 | the device leaves both maps and each role's count drops by the places it took |
| `Registrations.MovedBalancesExactly` | control/registration.py:134-141 | moving reservations to assignments keeps the counts exactly when nobody both reserves and holds |
| `Registrations.JamForMeans` | control/engine.py:717-739 | the jam role is the first open candidate that fits, else the carried instrument's solo role |
| `Answers.JamExactly` | control/jam_role.py:16-43 | the first role that is unscored, no Room's, open and fit for the device, JAM ones before others and each group as declared; when none is, the carried instrument's solo role, unscored, JAM and unbounded |
| `Registrations.JamBalancesExactly` | control/engine.py:717-739 | a jam keeps the books exactly when a candidate fits, or the table has no role of the solo role's name, or the one it has is a JAM role with a place |
| `Registrations.JammedAllBalancesExactly` | control/registration.py:142-149 | the jams of a start keep the books exactly when each finds a place when its turn comes |
| `Registrations.SoloSafeExactly` | control/jam_role.py:28-43 | no jam, whoever comes carrying what, ever breaks the books of a Bit exactly when each role it declares under a solo role's name is an unbounded JAM one |
| `Registrations.SoloRoleOverfills` | control/jam_role.py:28-43 | two devices carrying a lumi both jam into a Bit's own one-place "solo:lumi" role |
| `Registrations.JammedAllAssigns` | control/registration.py:142-149 | everyone listed without a role gets one jam or solo role, nobody else changes, and the table grows by solo roles only |
| `Registrations.EmptyCountsAreZero` | control/registration.py:163-170 | with both maps empty every count is zero |
| `RegistrationStates.RegistrationState.constructor` | control/registration.py:46-51 | both maps empty and every count zero, in balance |
| `RegistrationStates.RegistrationState.CapOf` | control/registration.py:53-63 | the lesser of the table's scored capacity and the declared maximum; no cap when either side has none |
| `RegistrationStates.RegistrationState.Validate` | control/registration.py:73-99 | the new state and the answer are the specification's |
| `RegistrationStates.RegistrationState.JoinRoom` | control/registration.py:101-120 | the new state and the answer are the specification's |
| `RegistrationStates.RegistrationState.Assign` | control/registration.py:122-132 | for any role: the new state is the specification's, False when it was held already, and the books balance after exactly when there was a place |
| `RegistrationStates.RegistrationState.Release` | control/registration.py:151-161 | the new state is the specification's; True when anything was held |
| `RegistrationStates.RegistrationState.ReleaseAll` | control/registration.py:163-170 | both maps empty, each holder named exactly once, and counts that were right back to zero |
| `RegistrationStates.RegistrationState.Materialize` | control/registration.py:134-149 | reservations then jam roles, as specified, from any state; each newly assigned device is named once with its role |
| `Engines.RefusalChangesNothing` | control/engine.py:652-715 | a handshake that is refused, by the instrument gate included, leaves the engine exactly as it was |
| `Answers.HandshakeMeansExactly` | control/engine.py:652-715 | each answer of a handshake is given exactly in its own case, no two cases meeting: connection, Bit, arming, fixture, SETUP, round, node, places, instrument, told from the pool, the bindings and the table alone |
| `Answers.HandshakeDoes` | control/engine.py:652-715 | an accepted one assigns the Room's role and binds the fixture still armed, or makes one reservation, or, repeated, changes nothing |
| `Engines.ScoredOutcome` | control/engine.py:690-715 | a scored handshake is refused without a trace, repeated without one, or adds exactly one reservation |
| `Engines.BindKeepsRoomHoldersExactly` | control/engine.py:794-808 | after a granted Room join every ROOM holder stands for a fixture exactly when the fixture still armed displaced no such holder, or, the window having expired by then, the device was bound already |
| `Engines.StartAssignsEveryone` | control/engine.py:542-558 | after `run` every validated device holds its reserved role and every other pooled device, neither fixture nor admin, one jam or solo role; nobody else changes; and the books balance exactly when each jam found a place |
| `Answers.HelloExactly` | control/engine.py:271-333 | first contact appends to the pool; in RUNNING a device that is no fixture, no admin and holds nothing is assigned the role `JamExactly` finds |
| `Answers.ReapExactly` | control/engine.py:335-402 | a silent device leaves the pool and gives its places back unless it stands for a fixture; no other device is touched |
| `Answers.LoadExactly` | control/engine.py:404-540 | goes ahead exactly from IDLE and when the Bit admits no more than its scored roles, all bounded, have places for; then maps are empty, counts zero, and the round is new |
| `Engines.StepKeepsSoundExactly` | control/engine.py:271-808 | a call keeps the books balanced and, in SETUP, only bound fixtures holding roles, exactly when its jams find places and its join, if made in SETUP, is safe |
| `Engines.LivesAreSoundExactly` | control/engine.py:271-808 | a whole life keeps that at every moment exactly when each of its calls does |
| `Engines.IdleIsSound` | control/engine.py:102-262 | a server with no Bit, whatever its devices, Room and admins, is where a life may begin |
| `Engines.LivesAreBalanced` | control/engine.py:271-785 | over any life of Bits with safe tables and safe joins, each count is its reservers plus holders, no capacity or cap is exceeded, and in SETUP nobody is in both maps |
| `Engines.StrandedDeviceLeaks` | control/engine.py:799-808 | the device an unsafe join leaves with a ROOM role and no fixture can validate too, and then `run`, whoever it jams, leaves the counts wrong |
| `Engines.UnsafeJoinsLeakACount` | control/room_binding.py:47-67 | concrete lives of both kinds, a re-armed fixture and a window that expires during the join: tap, validation, `run`, and the counts are wrong |
| `GameServers.GameServer.Handshake` | control/engine.py:652-715 | every branch in the source's order: the new state and the answer are the specification's |
| `GameServers.GameServer.JoinRoom` | control/engine.py:665-680 | the Room branch, with the bind of the fixture still armed when the window is read again, if one is |
| `GameServers.GameServer.Validate` | control/engine.py:690-715 | the scored branch with the instrument gate's undo |
| `GameServers.GameServer.Hello` | control/engine.py:271-333 | first contact pools the device and, in RUNNING, jams it at once |
| `GameServers.GameServer.ReapStale` | control/engine.py:335-402 | every silent device but bound fixtures is dropped and freed; those that held a role are named exactly once |
| `GameServers.GameServer.LoadBit` | control/engine.py:404-540 | only from IDLE and within the scored roles' capacity, with a fresh registration and a new round; refused, nothing changes |
| `GameServers.GameServer.Run` | control/engine.py:542-558 | only from SETUP; the new state is the specification's and each newly assigned device is named once |
| `GameServers.GameServer.JamCandidates` | control/engine.py:778-785 | exactly the pooled devices holding no role that are neither fixtures nor admins, in pool order |
| `GameServers.GameServer.Unload` | control/engine.py:1653-1679 | back to IDLE with both maps empty, each holder released exactly once, and counts that were right back to zero |
| `Mutes.LatchesAgree` | control/engine.py:799-849 | over any mix of mutes, binds, clears, unloads and Room changes every muted name is canonical and the agent holds exactly the same set |
| `Mutes.StepAgrees` | control/engine.py:1430-1471 | one call keeps that, and an unload leaves both sets empty |
| `Mutes.MutesHeard` | devicelink/agent.py:1045-1066 | replaying mute calls with the agent's own key adds exactly what the engine latched |
| `Mutes.ClearsHeard` | devicelink/agent.py:1078-1095 | replaying lift calls removes exactly what the engine cleared, by whichever name |
| `Mutes.ClearedExactly` | control/engine.py:1430-1471 | clearing takes exactly the entries whose canonical name was listed |
| `Mutes.BindCarriesTheMute` | control/engine.py:810-849 | what a bind does to every surface: the fixture takes over the player's mute, the player stays muted, a displaced device leaves it behind, the rest read as before |
| `Mutes.KeyIsFirst` | control/engine.py:1039-1054 | a device goes under the first fixture bound to it, and under its own name exactly when there is none |
| `Mutes.MutedExactly` | control/engine.py:1526-1536 | after a mute a surface reads muted exactly when it did or goes under the same name as one listed |
| `Mutes.DeviceAndTokenAgreeExactly` | control/engine.py:1039-1060 | a bound device and its token always read alike exactly when no device stands for two fixtures |
| `Mutes.MuteLatch.Key` | control/engine.py:1039-1054 | the token itself, else the first fixture bound to the device, else the device |
| `Mutes.MuteLatch.Mute` | control/engine.py:1526-1536 | the canonical names are latched and one call made per surface |
| `Mutes.MuteLatch.Bind` | control/engine.py:799-849 | the entry is written in place and a raw mute migrates, unmute call first |
| `Mutes.MuteLatch.Clear` | control/engine.py:1430-1471 | both spellings go and one call is made per surface found |
| `ArtNetSinks.NeverBlockedOnWork` | devicelink/artnet_sink.py:130-152 | in every interleaving a sender that cannot move has no due frame, no stop request, and less than one keepalive of sleep behind it |
| `ArtNetSinks.FramesLeaveInOrder` | devicelink/artnet_sink.py:154-177 | fresh frames leave in strictly increasing (due, order); a pushed frame is sent, queued, or passed over in a drain that sent a later one |
| `ArtNetSinks.DrainShows` | devicelink/artnet_sink.py:154-177 | in every interleaving each drain sends the newest due frame; with none due, the last shot's frame again exactly when that is a keepalive old; else nothing. After it the newest shot is less than a keepalive old |
| `ArtNetSinks.KeepaliveInTime` | devicelink/artnet_sink.py:130-177 | in every interleaving in which no service raises, a sender asleep with nothing to wake it sent its last shot less than one keepalive ago |
| `ArtNetSinks.WakesForAReason` | devicelink/artnet_sink.py:130-177 | in those, what a sender sleeps until is one keepalive after its last shot or the time of a queued frame |
| `ArtNetSinks.FrameIsQueued` | devicelink/artnet_sink.py:66-84 | a frame of another width changes nothing; any other goes in last, for its time less the lead, or for now when that has passed, and notifies |
| `ArtNetSinks.StopIsHeard` | devicelink/artnet_sink.py:95-119 | after a stop request the sender is never asleep for good, takes at most four sections more and sends at most one frame more |
| `ArtNetSinks.DarkIsLast` | devicelink/artnet_sink.py:95-119 | the closing black frame never shares the backend with the sender and nothing follows it |
| `ArtNetSinks.StepKeepsInv` | devicelink/artnet_sink.py:66-177 | each atomic section keeps the invariant those four rest on |
| `ArtNetSinks.ArtNetFixtureSink.SendFrame` | devicelink/artnet_sink.py:66-84 | a frame of the right width is queued at its time less the lead and the sender notified; any other changes nothing |
| `ArtNetSinks.ArtNetFixtureSink.Service` | devicelink/artnet_sink.py:154-166 | the newest due frame, else the last one again once it is a keepalive old, else nothing |
| `ArtNetSinks.ArtNetFixtureSink.Serviced` | devicelink/artnet_sink.py:166-177 | what is remembered, which counter moves, and the next wake time |
| `ArtNetSinks.ArtNetFixtureSink.Settle` | devicelink/artnet_sink.py:139-152 | exit on stop, else sleep to the earlier of the wake time and the next due frame, else go round |
| `Voices.GrantConservesExactly` | control/audio.py:195-230 | a grant keeps every channel in one place exactly when no lane fault is met, no held parts are overwritten and its welcome's voice does not raise; one failing otherwise changes nothing |
| `Voices.PlayConservesExactly` | control/audio.py:247-258 | a note keeps them exactly when the voice it takes does not raise |
| `Voices.TickConservesExactly` | control/audio.py:269-283 | a tick keeps them exactly when no due voice raises after another has been given back |
| `Voices.ReleaseConservesExactly` | control/audio.py:348-377 | a release keeps them exactly when the drone's voice does not raise |
| `Voices.ShutdownConservesExactly` | control/audio.py:379-401 | a shutdown keeps them exactly under the same two conditions, met in its order |
| `Voices.ShutdownFreesExactly` | control/audio.py:379-401 | every channel is free afterwards exactly when no voice raises, but for the last device's away from its drone |
| `Voices.QuiesceConservesExactly` | harness/arco_synth.py:203-214 | resetting the free list is right exactly when nobody holds a voice |
| `Voices.StepConservesExactly` | control/audio.py:195-401 | the conditions of all calls together |
| `Voices.VoicesAreConserved` | control/audio.py:195-401 | over any run of safe calls the free channels, the parts' and the waiting notes' partition 0..15, and channel 9 is only ever a drums part's |
| `VoiceCalls.AcquireExactly` | harness/arco_synth.py:134-151 | a channel is had exactly when the synthesizer runs and one of its kind is free: 9 for drums, else the lowest other |
| `VoiceCalls.GrantExactly` | control/audio.py:195-230 | goes through exactly when each instrument in its turn can have a channel of its kind, parses and sets its program; then the device holds those channels in that order and nobody else's entry changes |
| `VoiceCalls.PlayExactly` | control/audio.py:247-258 | a note waits, last, on the lowest free melodic channel; when its voice raises the channel is gone and no note waits |
| `VoiceCalls.TickExactly` | control/audio.py:269-283 | exactly the notes that are over end and free their channels, the rest wait on in order; when a voice of one raises all go on waiting |
| `VoiceCalls.ReleaseExactly` | control/audio.py:348-377 | exactly the device's entry goes, whether or not its drone raises |
| `VoiceCalls.SoundingExactly` | control/audio.py:318-334 | a drone starts only where one is declared and stops anywhere; no other entry changes |
| `AudioBridges.ArcoSynthPool.Acquire` | harness/arco_synth.py:134-151 | drums take channel 9 or nothing, a melodic voice the lowest other channel or nothing, and only that leaves the free list |
| `AudioBridges.ArcoSynthPool.Release` | harness/arco_synth.py:153-156 | the channel returns in order, once |
| `AudioBridges.AudioBridge.OnGrant` | control/audio.py:195-230 | the new state is the specification's, on success and on every failure |
| `AudioBridges.AudioBridge.PlayNote` | control/audio.py:247-258 | the new state is the specification's, on success and failure |
| `AudioBridges.AudioBridge.Tick` | control/audio.py:269-283 | the new state is the specification's, on success and failure |
| `AudioBridges.AudioBridge.OnRelease` | control/audio.py:348-377 | the new state is the specification's, on success and failure |
| `AudioBridges.AudioBridge.Shutdown` | control/audio.py:379-401 | the new state is the specification's, on success and failure |
| `Teardowns.TeardownStack.Push` | control/teardown.py:50-59 | appended, or refused once closed |
| `Teardowns.TeardownStack.Close` | control/teardown.py:61-88 | every step once, in reverse push order, however many raise, with the failures in that order; a second call does nothing |
| `Terrariums.LoadOrphansExactly` | control/terrarium.py:287-392 | what a failed load leaves running is exactly the process whose spawn an exception parted from the push of its teardown step, and there is none otherwise |
| `Terrariums.LoadsExactly` | control/terrarium.py:287-392 | a load succeeds exactly when no Room is held, nothing refuses or raises and the wait is not in vain; then the Room is the one named, Arco runs with exactly the simulators called for, and a fixture is bound exactly when it was recorded, simulated or tapped |
| `Terrariums.UnloadStrandsExactly` | control/terrarium.py:394-419 | an unload ends with no Room exactly when neither the binding store nor the device clearing raises, and what is still running otherwise |
| `Terrariums.UnloadRefusedExactly` | control/terrarium.py:394-403 | refused, changing nothing, exactly without a Room or with a Bit running and no force |
| `Terrariums.StoppedOnceHubLast` | control/teardown.py:61-88 | in a session that is over no process is stopped twice and Arco is stopped last |
| `Terrariums.StepKeepsInv` | control/terrarium.py:287-446 | one call leaves nothing running of a session that is over exactly when it parts no spawn from its push; from ROOM_UNLOADING it changes nothing |
| `Terrariums.RunsLeaveNoOrphanExactly` | control/terrarium.py:287-446 | over any loads, unloads and recycles: every process of a session that is over was stopped, once, simulators before Arco, exactly when no exception of the run fell between a spawn and its push; with no Room nothing is held |
| `Terrariums.UnwrittenRecordOrphans` | control/arco_process.py:446-451 | a concrete load: Arco is spawned, its record cannot be written, and it runs on with no Room and no stack |
| `TerrariumStates.TerrariumState.FastPath` | control/terrarium.py:70-102 | the simulators started and pushed, in order, up to the first that fails, the one started and not pushed, and the fixtures bound |
| `TerrariumStates.TerrariumState.Wait` | control/terrarium.py:105-147 | refused only when nothing is bound and no output drives a fixture |
| `TerrariumStates.TerrariumState.LoadRoom` | control/terrarium.py:287-392 | the new state, the processes and the outcome are the specification's, whatever raises |
| `TerrariumStates.TerrariumState.UnloadRoom` | control/terrarium.py:394-419 | the same for an unload |
| `TerrariumStates.TerrariumState.RecycleRoom` | control/terrarium.py:421-446 | the same for an unload followed by a load |
| `Geometry.MatMul` | control/model_layout.py:139-149 | the triple loop is the column-major product |
| `Geometry.ComposesExactly` | control/model_layout.py:139-158 | a product maps every point as its factors in turn do, exactly when the right one is affine or the left one translates nothing |
| `Geometry.WorldComposes` | control/model_layout.py:171-191 | the root-first product maps a point as the leaf's transform, then each ancestor's, do |
| `Geometry.AabbEncloses` | control/model_layout.py:319-327 | the box of the eight transformed corners holds the image of the whole local box |
| `Geometry.EnclosureIsTight` | control/model_layout.py:319-327 | a box holds that image exactly when it holds this one |
| `Geometry.HierarchyEncloses` | control/model_layout.py:171-327 | every point of a local box, taken up the whole hierarchy, lies in the corner box of the world matrix, and no smaller box holds them all |
| `NodeTree.Descend` | control/model_layout.py:203-216 | lists everything below a node, once each, exactly when that is a tree; refuses otherwise |
| `NodeTree.BuildParents` | control/model_layout.py:161-168 | each child's parent is the last node that lists it |
| `NodeTree.FindWorld` | control/model_layout.py:171-191 | composes the matrices of the line from the root exactly when there is a root, and refuses exactly a cycle |
| `NodeTree.LoopHasNoRoot` | control/model_layout.py:171-191 | a chain that meets itself has no root at any height |
| `NodeTree.Collect` | control/model_layout.py:219-242 | the markers by number exactly when all are below the LEDs node with no number twice |
| `NodeTree.Markers` | control/model_layout.py:219-345 | a scene passes exactly when what is below the LEDs node is a tree and its markers are numbered 0 to count - 1, once each |
| `Lanes.NeighboursExactly` | control/functions.py:605-615 | sorted neighbours are clear of each other exactly when every pair of domains is |
| `Lanes.ClaimsExactly` | control/functions.py:332-344 | an entry may write its lane exactly when its domain holds the value or is outermost on the side the value lies |
| `Gestures.GestureYieldsExactly` | control/functions.py:299-347 | of an accepted table reading one argument a lane, a lane gets a cue, one, exactly when the value lies in one of its domains or outside all of them on one side |
| `Gestures.CuesDoNotDependOnOrder` | control/functions.py:299-347 | declared in any order, such a table's gesture emits the same cues on the same lanes, away from a point where two domains touch |
| `Gestures.PermutedCompatible` | control/functions.py:587-615 | the overlap check accepts a table in any order or in none |
| `Lanes.FirstDeclaredWins` | control/functions.py:171-179 | where two domains touch the first declared has the lane, so the lower one exactly when it is declared first |
| `Lanes.OneClaimExactly` | control/functions.py:587-615 | two streams never both claim a lane, touching points apart, exactly when they all read one argument, which the check does not ask |
| `Lanes.EdgeClampExactly` | control/functions.py:271-296 | over every range to map onto, a value past an edge gives that edge's cue exactly when what is clamped is at or past it too: always, but for the magnitude of a value below its domain and past the low edge again |
| `Lanes.MagnitudeLeavesItsEdge` | control/functions.py:271-296 | a concrete output on [-10, -5] taking the magnitude: -20 gives the high edge's cue, 127 for 0 |
| `Lanes.DataFollows` | control/functions.py:286-296 | at or past an edge the cue is that end of the range, and between them it never turns back, whichever way the range runs |
| `Lanes.DataIsLinear` | control/functions.py:286-296 | the data byte is d exactly when d is the nearest integer, even at a half and kept within 0 to 255, to the point of the straight line between the range's ends over the value, or its magnitude, brought into the domain |
| `LaneMethods.AcceptsExactly` | control/functions.py:587-615 | accepts exactly the tables in which no two same-lane domains of one verb overlap |
| `LaneMethods.CollectStreamCues` | control/functions.py:299-347 | one cue for every lane with a winner, in declaration order and none for any other, with that winner's address and the data byte its straight line gives |
| `RoomProfiles.CheckBlocks` | control/room_profile.py:148-181 | the checks on one fixture's blocks |
| `RoomProfiles.CheckZones` | control/room_profile.py:182-197 | the checks on one fixture's zones |
| `RoomProfiles.TilesExactly` | control/room_profile.py:165-181 | blocks pass exactly when named apart, of 1 to 170 pixels, within their own total and clear of one another, in any order |
| `RoomProfiles.BlocksPartition` | control/room_profile.py:165-181 | every pixel below the total is exactly one block's, and no other pixel is any's |
| `RoomProfiles.NeighboursExactly` | control/room_profile.py:170-174 | sorted neighbours are clear exactly when every pair is |
| `RoomProfiles.ZonesPassExactly` | control/room_profile.py:182-197 | zones pass exactly when each lies within the fixture's pixels and every two are clear of each other, in any order |
| `RoomProfiles.ZonesAreKept` | control/room_profile.py:215-241 | every zone of every fixture is listed once, in declaration order, under both names, as long as it was and as far into its fixture's slice as into the fixture |
| `RoomProfiles.ZonesAreDisjoint` | control/room_profile.py:215-228 | no two namespaced zones of the surface share a pixel |
| `RoomProfiles.ZonesStayHome` | control/room_profile.py:215-228 | each lies in its own fixture's stretch of the surface |
| `RoomProfiles.SlicesPartition` | control/room_profile.py:230-241 | the slices are non-empty, follow one another from 0 to the frame's width, and hold their own fixtures' zones |
| `RoomProfiles.Zones` | control/room_profile.py:215-228 | the loop lists the namespaced zones in declaration order |
| `RoomProfiles.FixtureSlices` | control/room_profile.py:230-241 | the loop lists the slices in declaration order |

## Left out

- Floating point: beats, times, levels, coordinates and lane values are exact reals, and a tempo is above zero. Rounding to the nine-decimal grid and to a byte is modelled, as Python's half-to-even.
- HungNotes.ReleasesSilence: the synthesizer's voice is a model of its own, held keys and a pedal, and the Room is not muted.
- HungNotes.NoHungNote: one fixture's speaker, parts 0 to 15 on distinct tracks, the Room not muted, and lane cc:64 wired to the pedal; states since `start()`, which forgets what was struck before it.
- HungNotes.DroppedThroughout: a later `start()` in the middle of a run is not one of its events, for the same reason.
- Engines.LivesAreBalanced: the Room changes only between Bits.
- Engines.StepKeepsSoundExactly: states passed through inside one call (LOADING, LOADED, COMPLETING, UNLOADING) are not separate states of the model.
- GameServers.GameServer.Handshake: the two readings of the arming window, the default scored node and the instrument check are inputs; hints, logging and observer calls are not modelled, nor exceptions from observers, sinks and Bit hooks, which the code guards.
- GameServers.GameServer.LoadBit: Bit discovery, the checks outside registration and the role blob are one input, a table or none; a table files each role under its own name and its nodes name declared roles only, which the code does not check.
- RegistrationStates.RegistrationState.Materialize: dictionaries are maps, so the order in which reservations are moved and granted is not stated; `room_binding.py` is only the source of the armed fixture.
- Mutes.LatchesAgree: which devices a cue names (`_resolve_devs`) is an input, the Room changes only while nothing is muted, and calls that raise on their way to the agent are not modelled.
- ArtNetSinks.NeverBlockedOnWork: one sink is started at most once and closed once; a second `close` after a stuck sender, and a `start` after a `close`, are not modelled.
- ArtNetSinks.DarkIsLast: the backend's own `close`, which may overlap a stuck sender, is not a step; power limiting, universe splitting and packet loss are not modelled, a send succeeds or fails.
- ArtNetSinks.KeepaliveInTime: a service that raises waits a whole keepalive before the next, as in the code, so runs with one are left out.
- Voices.StepConservesExactly: within one call on the bridge a voice either raises whenever it is used or not at all; what raises is an Exception, not an interrupt, which the code's own `except Exception` lets through; lane maps, controller values and the note traffic of `feed_midi` move no channel and are not modelled.
- Terrariums.RunsLeaveNoOrphanExactly: a process counts as stopped once its teardown step has run, whether or not the step raised. What a later run's sweep makes of the spawn records, and observers, are not modelled.
- TerrariumStates.TerrariumState.Wait: which fixtures are tapped in time is an input; the arming windows and the polling loop's clock are not modelled.
- NodeTree.FindWorld: node indices are naturals inside the document except where a child index is checked; a `matrix` of another length than sixteen, quaternion rotation and scale (trigonometry) are not modelled, only the resulting matrices.
- NodeTree.Markers: names are taken as already matched to LED numbers; zones, mesh accessors, rounding to millimetres and size bands are not modelled.
- LaneMethods.CollectStreamCues: the caller has filtered the streams of one verb, and their bounds are finite with in_lo below in_hi, as the load-time checks ensure; scripts, conditions and generators in `functions.py` are not modelled.
- RoomProfiles.TilesExactly: instruments and `fixture_instrument_mismatch` are not modelled; two zones of one fixture may share a name, as in the code.
- devicelink/lobby_runtime.py, control/lobby.py, control/generator_runner.py and control/terrarium_config.py: the lobby's light and bell ceremonies, generators and the array configuration checks are not part of this model; they would mostly add easier members of the kinds above.
- console/, uplink/, processes, serial and network transport, TOML and catalog parsing: not part of this model.
