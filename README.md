# MusicNotes: a Simon-says state machine, in Dafny

This project models the game logic of `Assets/MusicNotes.cs` and the click
flag of `Assets/Clickable.cs`. The game finds its notes. Each note's colour
is its name with the `"MusicNote"` prefix dropped. The game draws a
sequence of three colours and then runs on frame ticks. Every frame the
active note vibrates (on a 4-frame cadence). On every 180th frame the
state machine advances. In SHOW and WAIT_SHOW it reveals the sequence one
colour at a time. In PLAY it reads the player's clicks. A click on the
right colour gives a confirmation vibration (WAIT_PLAY) and moves on; a
wrong colour gives LOSS; the whole sequence right gives WIN.

Layout:

- `clickable.dfy`, module `Clicking`: class `Clickable` with its one
  field `isClicked`.
- `notes.dfy`, module `Notes`: the pure parts. These are the colour of a
  note, the colour list, `ToDictionary`, `GenerateSequence` over supplied
  draws, and the click resolver `WhichClicked`, which returns
  `NoneClicked | One(c) | Several`.
- `machine.dfy`, module `Machine`: the state machine as values. There is
  one function `After…` per handler of the source. Each gives the
  `Session` after that handler runs. A `Session` holds the state, the
  cursor, the vibrating colour, the frame counter, the note positions and
  the click flags. `Inv` is the invariant every frame keeps.
- `machine_properties.dfy`, module `MachineProperties`: lemmas about whole
  runs. They cover the cadence, the reveal, correct play, a wrong click,
  and the final states. `UpdatesRunTicks` ties the per-frame `Update` to
  the ticks of the state machine: from frame 0, 180 updates decide what
  one tick decides, whatever jitter is drawn.
- `music_notes.dfy`, module `Game`: class `MusicNotes` with the source's
  fields. The four handlers `UpdateShow`, `UpdateWaitShow`, `UpdatePlay`
  and `UpdateWaitPlay`, and `Update` itself, are proved to change the
  fields exactly as the matching `Machine.After…` function says, and to
  keep `Valid()`. `StartGameMode`, `Vibrate` and `StopVibrating` are tied
  to their `After…` function too. The helpers `SetGameState`,
  `EveryFrame` and `ResetClicks` state their effect on the fields
  directly.
- `wrappers.dfy`: `Option`, which stands in for a nullable string.

How Unity and randomness become inputs:

- Unity creates the component and calls `Start` once before the first
  frame. This is the named constructor `MusicNotes.Start`.
- It receives the notes' names, their positions at that moment, each
  note's `Clickable` component (`null` when a note has none, as
  `GetComponent` allows), and the random draws.
- A draw of `GenerateSequence` is the index of the colour that the
  shuffle `OrderBy(_ => _rnd.Next())` puts first. `Update` receives the
  two `Next(10)` results that `Vibrate` uses.
- Positions are integers counted in twentieths of a unit. So the offset
  `Next(10) / 20f` stands for `Next(10)` twentieths.
- The source's `null` and `""` results of `WhichClicked` become
  `NoneClicked` and `Several`. Every name must be longer than the prefix,
  so no colour is `""` and the two sentinels cannot be confused.

Three behaviours of the code a reader might not expect, which the model keeps:

- Setup refuses fewer than two notes. It does not count distinct colours.
  Distinct colours are a precondition of `Start`, because `ToDictionary`
  throws on a duplicate.
- The sign flips of `Vibrate` test `Next(1) == 1`, which never holds. So
  the offset is never negative.
- `StartGameMode(PLAY)` at the end of the reveal does not clear the click
  flags. A click made during the reveal is read by the first PLAY tick
  (`RevealEndsInPlay` keeps the flags unchanged).

## Model

| member | source | states |
|---|---|---|
| `Clicking.Clickable.Start` | Assets/Clickable.cs:20-23 | the flag is false afterwards |
| `Clicking.Clickable.OnMouseDown` | Assets/Clickable.cs:9-12 | the flag is true afterwards, whatever it was |
| `Clicking.Clickable.ResetClicked` | Assets/Clickable.cs:14-17 | the flag is false afterwards, whatever it was, so a second reset changes nothing |
| `Clicking.Clickable.Update` | Assets/Clickable.cs:26-29 | the per-frame hook modifies nothing and leaves the flag as it was |
| `Notes.GetNoteColor` | Assets/MusicNotes.cs:50-53 | the colour is what follows the first nine characters of the name |
| `Notes.GetNoteColorOfNoteName` | Assets/MusicNotes.cs:50-53 | naming a note "MusicNote" + c and reading its colour gives back c |
| `Notes.ColorNames` | Assets/MusicNotes.cs:26 | one colour per note, in note order; none is the empty string |
| `Notes.ToDictionary` | Assets/MusicNotes.cs:28-29 | with distinct keys, each key maps to the value at its place, and there are no other keys |
| `Notes.GenerateSequence` | Assets/MusicNotes.cs:55-63 | n draws give a list of length n; element k is the colour draw k picked, so every element is in the colour list |
| `Notes.EverySequenceCanBeDrawn` | Assets/MusicNotes.cs:58-62 | any list of catalogue colours, repeats included, is the result of some choice of draws |
| `Notes.ClickedColorsMembers` | Assets/MusicNotes.cs:193-198 | a colour is in the clicked list exactly when the note at some place of that colour has its flag set |
| `Notes.ClickedColors` | Assets/MusicNotes.cs:193-198 | the clicked colours are at most as many as the notes, and each is a catalogue colour |
| `Notes.WhichClicked` | Assets/MusicNotes.cs:190-200 | a single result is a catalogue colour, and "several" needs at least two notes; the three lemmas below give each outcome exactly |
| `Notes.WhichClickedNone` | Assets/MusicNotes.cs:190-200 | the resolver says "none" exactly when no flag is set |
| `Notes.WhichClickedOne` | Assets/MusicNotes.cs:190-200 | the resolver says colour c exactly when a single flag is set, on a note of colour c |
| `Notes.WhichClickedSeveral` | Assets/MusicNotes.cs:190-200 | the resolver says "several" exactly when two or more flags are set |
| `Machine.OnCadenceOncePerInterval` | Assets/MusicNotes.cs:116-125 | within one interval the cadence test of `EveryFrame` holds at frame 0 and at frame v and nowhere in between |
| `Machine.Inv` | Assets/MusicNotes.cs:36-246 | the invariant every handler keeps: frame below 180; once started, the cursor inside the sequence, a vibrating colour exactly in WAIT_SHOW and WAIT_PLAY and equal to the colour under the cursor, and every note at rest or jittered as the vibrating note |
| `Machine.SetupIsReady` | Assets/MusicNotes.cs:26-31 | the colour dictionaries and the sequence built from distinct non-empty colours form a ready configuration, and every note starts at its recorded rest position |
| `Machine.AfterStopVibrating` | Assets/MusicNotes.cs:146-156 | with nothing vibrating, nothing changes; otherwise the vibrating note is back at its rest position, nothing vibrates, and no other note or field changes |
| `Machine.AfterStartGameMode` | Assets/MusicNotes.cs:36-42 | the new mode with cursor 0 and nothing vibrating; frame and click flags untouched |
| `Machine.AfterShow` | Assets/MusicNotes.cs:174-179 | the colour under the cursor vibrates, and the invariant is kept |
| `Machine.AfterWaitShow` | Assets/MusicNotes.cs:158-172 | the invariant is kept (the cursor stays inside the sequence) and the click flags are left alone |
| `Machine.AfterPlay` | Assets/MusicNotes.cs:219-246 | every flag is cleared and the invariant is kept |
| `Machine.AfterWaitPlay` | Assets/MusicNotes.cs:202-217 | nothing vibrates afterwards; after the last colour the game is WIN at cursor 0 with the flags as they were, otherwise PLAY at the next cursor with every flag cleared, so clicks made during the confirmation are dropped; the invariant is kept |
| `Machine.AfterTick` | Assets/MusicNotes.cs:82-113 | the invariant is kept, the frame is untouched, and IDLE, LOSS and WIN change nothing |
| `Machine.AfterVibrate` | Assets/MusicNotes.cs:127-144 | off the 4-cadence nothing moves; on it, only the note of that colour moves, to its rest height with x and z offsets in [0, 9] twentieths; the invariant is kept |
| `Machine.AfterUpdate` | Assets/MusicNotes.cs:69-125 | the invariant is kept; the frame goes to (frame + 1) mod 180; the state machine is due exactly when the frame was 179, and otherwise state, cursor, vibrating colour and flags are unchanged; off the tick, on a frame of the 4-cadence the vibrating note goes to its rest position plus the two drawn offsets, and on any other frame, or with nothing vibrating, no note moves |
| `MachineProperties.UpdatesCountFrames` | Assets/MusicNotes.cs:76-80 | after n updates the frame counter is (start + n) mod 180 |
| `MachineProperties.StateMachineRunsEvery180th` | Assets/MusicNotes.cs:116-125 | from frame 0, update call n+1 runs the state machine exactly when 180 divides n+1; the frame-0 clause never fires there |
| `MachineProperties.UpdatesSplit` | Assets/MusicNotes.cs:69-114 | frames run one after another: updates over a + b are the updates over a followed by those over b |
| `MachineProperties.QuietUpdates` | Assets/MusicNotes.cs:69-80 | updates that stay below frame 179 leave state, cursor, vibrating colour and flags alone and only count frames |
| `MachineProperties.TickIgnoresPositions` | Assets/MusicNotes.cs:82-113 | what a tick decides does not depend on where the notes are |
| `MachineProperties.TicksIgnorePositions` | Assets/MusicNotes.cs:82-113 | the same holds for any number of ticks |
| `MachineProperties.UpdatesRunOneTick` | Assets/MusicNotes.cs:69-125 | from frame 0, 180 updates with any jitter decide exactly what one tick decides, and the counter is back at 0 |
| `MachineProperties.UpdatesRunTicks` | Assets/MusicNotes.cs:69-125 | from frame 0, 180·n updates decide exactly what n ticks decide, so the tick lemmas hold of the per-frame loop |
| `MachineProperties.JitterEveryFourthUpdate` | Assets/MusicNotes.cs:69-80 | from frame 0, update call k+1 jitters the vibrating note to its rest position plus the drawn offsets whenever 4 divides k, across the 180-frame resets, and moves no note on the other calls that do not run the state machine |
| `MachineProperties.TerminalStatesAreFinal` | Assets/MusicNotes.cs:84-107 | from IDLE, LOSS or WIN, any number of updates changes nothing but the frame counter |
| `MachineProperties.ShowRound` | Assets/MusicNotes.cs:158-179 | a SHOW tick makes the colour under the cursor vibrate; the WAIT_SHOW tick after it moves to the next colour, or to PLAY at 0 after the last one, and leaves the notes where they were |
| `MachineProperties.RevealVisitsEachIndex` | Assets/MusicNotes.cs:158-179 | the reveal is in SHOW at index k on tick 2k and in WAIT_SHOW with colour k vibrating on tick 2k+1 |
| `MachineProperties.RevealEndsInPlay` | Assets/MusicNotes.cs:162-165 | two ticks per colour after SHOW the game is in PLAY at cursor 0 with nothing vibrating and the click flags as they were |
| `MachineProperties.RevealOverFrames` | Assets/MusicNotes.cs:69-179 | frame by frame from SHOW at frame 0, 360 updates per remaining colour end in PLAY at cursor 0, nothing vibrating, flags as they were |
| `MachineProperties.PressResolves` | Assets/MusicNotes.cs:190-200 | a click on one note alone resolves to that note's colour |
| `MachineProperties.PlayWaitsForAClick` | Assets/MusicNotes.cs:224-227 | a PLAY tick with no flag set changes nothing |
| `MachineProperties.PlayIgnoresSeveralClicks` | Assets/MusicNotes.cs:229-232 | a PLAY tick with two or more flags set only clears the flags |
| `MachineProperties.PlayJudgesOneClick` | Assets/MusicNotes.cs:234-245 | a single click on the colour under the cursor gives WAIT_PLAY with that colour vibrating; any other colour gives LOSS; the flags are cleared |
| `MachineProperties.RoundAdvances` | Assets/MusicNotes.cs:202-245 | a correct click then two ticks moves PLAY to the next cursor, or to WIN at cursor 0 after the last colour |
| `MachineProperties.CorrectPlayWins` | Assets/MusicNotes.cs:202-245 | with correct clicks from cursor k, the game is in PLAY at k+j after j rounds, and in WIN after exactly L-k rounds |
| `MachineProperties.RoundOverFrames` | Assets/MusicNotes.cs:69-245 | frame by frame: a correct click in PLAY at frame 0, then 360 updates, gives PLAY at the next cursor, or WIN at 0 after the last colour, with the flags cleared |
| `MachineProperties.WrongClickLoses` | Assets/MusicNotes.cs:236-245 | a wrong colour clicked alone gives LOSS at the next tick, which is the 180th update from frame 0, and LOSS survives every later update |
| `Game.MusicNotes.Start` | Assets/MusicNotes.cs:17-34 | with fewer than 2 notes the game is IDLE; otherwise SHOW at cursor 0, nothing vibrating, the dictionaries built from the colour list, and a 3-colour sequence from the draws; the invariant holds |
| `Game.MusicNotes.StartGameMode` | Assets/MusicNotes.cs:36-42 | the fields change as `AfterStartGameMode` says |
| `Game.MusicNotes.SetGameState` | Assets/MusicNotes.cs:44-48 | only the state changes, to the given one |
| `Game.MusicNotes.EveryFrame` | Assets/MusicNotes.cs:116-125 | true exactly when the counter is 0 or a multiple of v; the counter is reset to 0 only when it fires with reset set, otherwise unchanged |
| `Game.MusicNotes.Vibrate` | Assets/MusicNotes.cs:127-144 | the positions change as `AfterVibrate` says |
| `Game.MusicNotes.StopVibrating` | Assets/MusicNotes.cs:146-156 | the fields change as `AfterStopVibrating` says |
| `Game.MusicNotes.UpdateWaitShow` | Assets/MusicNotes.cs:158-172 | the fields change as `AfterWaitShow` says, and the invariant is kept |
| `Game.MusicNotes.UpdateShow` | Assets/MusicNotes.cs:174-179 | the fields change as `AfterShow` says, and the invariant is kept |
| `Game.MusicNotes.ResetClicks` | Assets/MusicNotes.cs:181-188 | every note's flag is false afterwards; nothing of the game changes |
| `Game.MusicNotes.UpdateWaitPlay` | Assets/MusicNotes.cs:202-217 | fields and flags change as `AfterWaitPlay` says, and the invariant is kept |
| `Game.MusicNotes.UpdatePlay` | Assets/MusicNotes.cs:219-246 | fields and flags change as `AfterPlay` says, and the invariant is kept |
| `Game.MusicNotes.Update` | Assets/MusicNotes.cs:69-114 | fields, positions and flags change as `AfterUpdate` says, and the invariant (cursor in range, frame below 180, notes at rest or jittered) is kept |

## Left out

- Unity plumbing is replaced by inputs. `FindGameObjectsWithTag`,
  `GetComponent<Clickable>()`, `transform.position` and the
  `MonoBehaviour` lifecycle become the arguments of `Start`, the
  `clickables` list and the `positions` field.
- `Debug.Log` and `DebugPrintArray` are left out. They are diagnostics only.
- Floating-point `Vector3` arithmetic is replaced by integer twentieths.
- `System.Random` is left out, and so is the uniformity of its draws. A
  draw is a supplied index or offset that must lie in range.
- The sign flips of `Vibrate` (`Next(1) == 1`) are not modelled, because
  that test never holds.
- The `default:` branch of `Update`'s switch is not modelled. It cannot be
  reached with a datatype for the state; it would call
  `StartGameMode(IDLE)`.
- `ToDictionary`'s exception on a repeated colour is left out, and so is
  `Substring`'s exception on a name shorter than the prefix. Both become
  preconditions of `Start`.
- When fewer than two notes are found, the source leaves the colour list,
  the dictionaries and the sequence null. The model sets them empty. An
  IDLE game never reads them.
- Unity calls `Start` exactly once. It is modelled as the constructor, so
  a second call is not modelled.
- The four `Update…` handlers require the state they are dispatched in,
  as `Update`'s switch guarantees.
