/**
 * The `MusicNotes` component (Assets/MusicNotes.cs) as a class with the
 * source's fields. Unity's scene search, components and random source are
 * replaced by what `Start` and `Update` receive. Every method changes the
 * fields exactly as the matching function of module Machine says.
 */
module Game {
  import opened Wrappers
  import opened Notes
  import opened Machine
  import opened Clicking

  class MusicNotes {
    /** The names of the notes found by their tag. */
    const musicNotes: seq<string>
    /** Each note's `Clickable` component; null for a note without one. */
    const clickables: seq<Clickable?>
    const colorNames: seq<Color>
    const notesForColor: map<Color, nat>
    const initialColorPos: map<Color, Pos>
    const sequence: seq<Color>

    /** The live position of each note. */
    var positions: seq<Pos>
    var gameState: GameState
    var curSequence: nat
    var curVibrating: Option<Color>
    var curFrame: nat

    ghost function Components(): set<Clickable> {
      set c: Clickable | c in clickables
    }

    /** The click flag of each note; a note without a component counts as not clicked. */
    function Flags(): (flags: seq<bool>)
      reads Components()
      ensures |flags| == |clickables|
      ensures forall i :: 0 <= i < |clickables| ==> flags[i] == (clickables[i] != null && clickables[i].isClicked)
    {
      seq(|clickables|, i requires 0 <= i < |clickables| reads Components() =>
        clickables[i] != null && clickables[i].isClicked)
    }

    function Cfg(): Config {
      Config(colorNames, notesForColor, initialColorPos, sequence)
    }

    ghost function Model(): Session
      reads this, Components()
    {
      Session(gameState, curSequence, curVibrating, curFrame, positions, Flags())
    }

    ghost predicate Valid()
      reads this, Components()
    {
      && |clickables| == |musicNotes|
      && |positions| == |musicNotes|
      && Inv(Cfg(), Model())
    }

    /** Everything `Start` needs once two or more notes are found. */
    static predicate CanStart(names: seq<string>, draws: seq<nat>) {
      && WellNamed(names)
      && Distinct(ColorNames(names))
      && |draws| == NUM_IN_SEQUENCE
      && forall k :: 0 <= k < |draws| ==> draws[k] < |names|
    }

    /**
     * Creation of the component and Unity's `Start`: with fewer than two
     * notes the game stays idle; otherwise the colours, the dictionaries
     * and a sequence of three colours are built and the reveal begins.
     */
    constructor Start(names: seq<string>, startPositions: seq<Pos>, components: seq<Clickable?>, draws: seq<nat>)
      requires |startPositions| == |names| && |components| == |names|
      requires 2 <= |names| ==> CanStart(names, draws)
      ensures Valid()
      ensures musicNotes == names && clickables == components
      ensures positions == startPositions && curFrame == 0 && curSequence == 0 && curVibrating == None
      ensures |names| < 2 ==> gameState == Idle
      ensures 2 <= |names| ==>
                && gameState == Show
                && colorNames == ColorNames(names)
                && sequence == GenerateSequence(colorNames, NUM_IN_SEQUENCE, draws)
                && |sequence| == NUM_IN_SEQUENCE
                && notesForColor == ToDictionary(colorNames, Indexes(|colorNames|))
                && initialColorPos == ToDictionary(colorNames, startPositions)
    {
      musicNotes := names;
      clickables := components;
      positions := startPositions;
      gameState, curSequence, curVibrating, curFrame := Idle, 0, None, 0;
      if |names| < 2 {
        colorNames, notesForColor, initialColorPos, sequence := [], map[], map[], [];
      } else {
        var colors := ColorNames(names);
        SetupIsReady(colors, startPositions, draws);
        colorNames := colors;
        notesForColor := ToDictionary(colors, Indexes(|colors|));
        initialColorPos := ToDictionary(colors, startPositions);
        sequence := GenerateSequence(colors, NUM_IN_SEQUENCE, draws);
      }
      new;
      if 2 <= |names| {
        StartGameMode(Show);
        StartedSessionInv(Cfg(), Model());
      }
    }

    /** `StartGameMode`: cursor to 0, stop the vibration, enter the mode. */
    method StartGameMode(mode: GameState)
      requires curVibrating.Some? ==> Known(Cfg(), curVibrating.value) && |positions| == |colorNames|
      modifies this
      ensures Model() == AfterStartGameMode(Cfg(), old(Model()), mode)
    {
      curSequence := 0;
      StopVibrating();
      gameState := mode;
    }

    /** `SetGameState`: enter the state, nothing else. */
    method SetGameState(mode: GameState)
      modifies this`gameState
      ensures gameState == mode
    {
      gameState := mode;
    }

    /**
     * `EveryFrame`: whether the frame counter is 0 or a multiple of v; with
     * `reset`, a counter on the cadence goes back to 0.
     */
    method EveryFrame(v: int, reset: bool) returns (isCorrect: bool)
      requires curFrame == 0 || v != 0
      modifies this`curFrame
      ensures isCorrect <==> old(curFrame) == 0 || old(curFrame) % v == 0
      ensures curFrame == if isCorrect && reset then 0 else old(curFrame)
    {
      isCorrect := curFrame == 0 || curFrame % v == 0;
      if isCorrect && reset {
        curFrame := 0;
      }
    }

    /**
     * `Vibrate`: on the 4-cadence, moves the note of `color` off its rest
     * position by the drawn offsets `nextX`, `nextZ` (the two `Next(10)`).
     */
    method Vibrate(color: Color, nextX: int, nextZ: int)
      requires Known(Cfg(), color) && |positions| == |colorNames|
      requires 0 <= nextX < JITTER_DRAWS && 0 <= nextZ < JITTER_DRAWS
      modifies this
      ensures Model() == AfterVibrate(Cfg(), old(Model()), color, nextX, nextZ)
    {
      var onCadence := EveryFrame(VIBRATE_INTERVAL, false);
      if !onCadence {
        return;
      }
      var initial := initialColorPos[color];
      positions := positions[notesForColor[color] := Pos(initial.x + nextX, initial.y, initial.z + nextZ)];
    }

    /** `StopVibrating`: the vibrating note back at rest, and nothing vibrating. */
    method StopVibrating()
      requires curVibrating.Some? ==> Known(Cfg(), curVibrating.value) && |positions| == |colorNames|
      modifies this`positions, this`curVibrating
      ensures Model() == AfterStopVibrating(Cfg(), old(Model()))
    {
      if curVibrating == None {
        return;
      }
      var color := curVibrating.value;
      positions := positions[notesForColor[color] := initialColorPos[color]];
      curVibrating := None;
    }

    /** `UpdateWaitShow`, run by `Update` in WAIT_SHOW. */
    method UpdateWaitShow()
      requires Valid() && gameState == WaitShow
      modifies this
      ensures Valid()
      ensures Model() == AfterWaitShow(Cfg(), old(Model()))
    {
      StopVibrating();
      if curSequence == |sequence| - 1 {
        StartGameMode(Play);
      } else {
        curSequence := curSequence + 1;
        SetGameState(Show);
      }
    }

    /** `UpdateShow`, run by `Update` in SHOW. */
    method UpdateShow()
      requires Valid() && gameState == Show
      modifies this
      ensures Valid()
      ensures Model() == AfterShow(Cfg(), old(Model()))
    {
      SetGameState(WaitShow);
      curVibrating := Some(sequence[curSequence]);
    }

    /** `ResetClicks`: clears the flag of every note that has a component. */
    method ResetClicks()
      modifies Components()
      ensures Flags() == Unclicked(|clickables|)
    {
      for i := 0 to |clickables|
        invariant forall j :: 0 <= j < i && clickables[j] != null ==> !clickables[j].isClicked
      {
        if clickables[i] != null {
          clickables[i].ResetClicked();
        }
      }
    }

    /** `UpdateWaitPlay`, run by `Update` in WAIT_PLAY. */
    method UpdateWaitPlay()
      requires Valid() && gameState == WaitPlay
      modifies this, Components()
      ensures Valid()
      ensures Model() == AfterWaitPlay(Cfg(), old(Model()))
    {
      StopVibrating();
      if curSequence == |sequence| - 1 {
        StartGameMode(Win);
      } else {
        curSequence := curSequence + 1;
        ghost var stepped := Model();
        ResetClicks();
        assert Model() == stepped.(clicks := Unclicked(|clickables|));
        SetGameState(Play);
      }
    }

    /** `UpdatePlay`, run by `Update` in PLAY. */
    method UpdatePlay()
      requires Valid() && gameState == Play
      modifies this, Components()
      ensures Valid()
      ensures Model() == AfterPlay(Cfg(), old(Model()))
    {
      ghost var before := Model();
      var clicked := WhichClicked(colorNames, Flags());
      ResetClicks();
      assert Model() == before.(clicks := Unclicked(|clickables|));
      match clicked
      case NoneClicked =>
        // the player has not clicked yet
      case Several =>
        // the player clicked several notes
      case One(c) =>
        var color := sequence[curSequence];
        if c == color {
          SetGameState(WaitPlay);
          curVibrating := Some(color);
          assert Model() == before.(clicks := Unclicked(|clickables|), state := WaitPlay, vibrating := Some(color));
        } else {
          SetGameState(Loss);
          assert Model() == before.(clicks := Unclicked(|clickables|), state := Loss);
        }
    }

    /**
     * `Update`, once per frame: vibrate the active note with the offsets
     * drawn this frame, count the frame, and every 180th frame run the
     * handler of the current state.
     */
    method Update(nextX: int, nextZ: int)
      requires Valid()
      requires 0 <= nextX < JITTER_DRAWS && 0 <= nextZ < JITTER_DRAWS
      modifies this, Components()
      ensures Valid()
      ensures Model() == AfterUpdate(Cfg(), old(Model()), nextX, nextZ)
    {
      ghost var before := Model();
      if curVibrating.Some? {
        Vibrate(curVibrating.value, nextX, nextZ);
      }
      ghost var vibrated := Model();
      assert Inv(Cfg(), vibrated);
      curFrame := curFrame + 1;
      var onCadence := EveryFrame(STEP_INTERVAL, true);
      if !onCadence {
        assert Model() == vibrated.(frame := vibrated.frame + 1);
        return;
      }
      assert Model() == vibrated.(frame := 0);
      InvAtAnyFrame(Cfg(), vibrated, 0);
      match gameState
      case Idle =>
      case WaitShow => UpdateWaitShow();
      case Show => UpdateShow();
      case WaitPlay => UpdateWaitPlay();
      case Play => UpdatePlay();
      case Loss =>
      case Win =>
    }
  }
}
