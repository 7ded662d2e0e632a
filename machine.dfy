/**
 * The game's state machine as values: one function per handler of
 * Assets/MusicNotes.cs, each giving the session after the handler has run.
 * The class in music_notes.dfy is proved to change its fields exactly as
 * these functions say.
 */
module Machine {
  import opened Wrappers
  import opened Notes

  /** The phases of the game; a game that could not start stays in `Idle`. */
  datatype GameState = Idle | WaitShow | Show | WaitPlay | Play | Loss | Win

  /** A position, each coordinate counted in twentieths of a scene unit. */
  datatype Pos = Pos(x: int, y: int, z: int)

  /** The state machine runs once every 3 * 60 frames. */
  const STEP_INTERVAL: int := 3 * 60

  /** The vibrating note moves once every 4 frames. */
  const VIBRATE_INTERVAL: int := 4

  /** Each offset is `Next(10)` twentieths: an integer in [0, 10). */
  const JITTER_DRAWS: int := 10

  /** The length of the sequence the player must repeat. */
  const NUM_IN_SEQUENCE: nat := 3

  /** What `Start` fixes for the whole game. */
  datatype Config = Config(
    colorNames: seq<Color>,
    notesForColor: map<Color, nat>,
    initialColorPos: map<Color, Pos>,
    sequence: seq<Color>)

  /** What the frames change: the game's own fields, the note positions and the click flags. */
  datatype Session = Session(
    state: GameState,
    cursor: nat,
    vibrating: Option<Color>,
    frame: nat,
    positions: seq<Pos>,
    clicks: seq<bool>)

  /** The cadence test of `EveryFrame`: frame 0, or a multiple of the interval. */
  predicate OnCadence(frame: nat, v: int)
    requires frame == 0 || v != 0
  {
    frame == 0 || frame % v == 0
  }

  /**
   * Within one interval the cadence fires at frame 0 and again at frame v,
   * and at no frame in between.
   */
  lemma OnCadenceOncePerInterval(frame: nat, v: int)
    requires 0 < v && frame <= v
    ensures OnCadence(frame, v) <==> frame == 0 || frame == v
  {
    if 0 < frame < v {
      assert frame % v == frame;
    }
  }

  /** The state machine runs on an update whose incremented frame is on the 180 cadence. */
  predicate TickDue(frame: nat) {
    OnCadence(frame + 1, STEP_INTERVAL)
  }

  /** A colour of the catalogue: it has a note, the note has that colour, and a rest position. */
  predicate Known(cfg: Config, c: Color) {
    && c in cfg.notesForColor
    && c in cfg.initialColorPos
    && cfg.notesForColor[c] < |cfg.colorNames|
    && cfg.colorNames[cfg.notesForColor[c]] == c
  }

  /** The configuration of a game that has started. */
  ghost predicate Ready(cfg: Config) {
    && 2 <= |cfg.colorNames|
    && 1 <= |cfg.sequence|
    && (forall i :: 0 <= i < |cfg.colorNames| ==>
          && cfg.colorNames[i] != ""
          && Known(cfg, cfg.colorNames[i])
          && cfg.notesForColor[cfg.colorNames[i]] == i)
    && (forall k :: 0 <= k < |cfg.sequence| ==> Known(cfg, cfg.sequence[k]))
  }

  /** The rest position of note i, captured by `Start`. */
  function Rest(cfg: Config, i: nat): Pos
    requires i < |cfg.colorNames| && cfg.colorNames[i] in cfg.initialColorPos
  {
    cfg.initialColorPos[cfg.colorNames[i]]
  }

  /** Where a vibrating note may be: the rest height, x and z pushed by less than 10/20. */
  predicate Jittered(p: Pos, rest: Pos) {
    && p.y == rest.y
    && rest.x <= p.x < rest.x + JITTER_DRAWS
    && rest.z <= p.z < rest.z + JITTER_DRAWS
  }

  /** No click flag set. */
  function Unclicked(n: nat): (flags: seq<bool>)
    ensures |flags| == n && forall i :: 0 <= i < n ==> !flags[i]
  {
    seq(n, i => false)
  }

  predicate Terminal(state: GameState) {
    state == Idle || state == Loss || state == Win
  }

  /**
   * The invariant every frame keeps. Only the wait states have a vibrating
   * note, and it is the colour under the cursor; the cursor indexes the
   * sequence; every note is at rest except the vibrating one, which is
   * within the jitter box of its rest position.
   */
  ghost predicate Inv(cfg: Config, s: Session) {
    && s.frame < STEP_INTERVAL
    && (s.state == Idle ==> s.vibrating == None)
    && (s.state != Idle ==>
          && Ready(cfg)
          && |s.positions| == |cfg.colorNames|
          && |s.clicks| == |cfg.colorNames|
          && s.cursor < |cfg.sequence|
          && (s.vibrating.Some? <==> s.state == WaitShow || s.state == WaitPlay)
          && (s.vibrating.Some? ==> s.vibrating.value == cfg.sequence[s.cursor])
          && (forall i :: 0 <= i < |s.positions| ==>
                || s.positions[i] == Rest(cfg, i)
                || (s.vibrating == Some(cfg.colorNames[i]) && Jittered(s.positions[i], Rest(cfg, i)))))
  }

  /**
   * `StopVibrating`: puts the vibrating note back at its rest position and
   * forgets it; with nothing vibrating, changes nothing.
   */
  function AfterStopVibrating(cfg: Config, s: Session): (r: Session)
    requires s.vibrating.Some? ==> Known(cfg, s.vibrating.value) && |s.positions| == |cfg.colorNames|
    ensures r == s.(vibrating := None, positions := r.positions)
    ensures s.vibrating == None ==> r == s
    ensures |r.positions| == |s.positions|
    ensures s.vibrating.Some? ==>
              r.positions[cfg.notesForColor[s.vibrating.value]] == cfg.initialColorPos[s.vibrating.value]
    ensures forall i :: 0 <= i < |s.positions| && (s.vibrating.Some? ==> i != cfg.notesForColor[s.vibrating.value])
                        ==> r.positions[i] == s.positions[i]
  {
    match s.vibrating
    case None => s
    case Some(c) =>
      s.(positions := s.positions[cfg.notesForColor[c] := cfg.initialColorPos[c]], vibrating := None)
  }

  /**
   * `StartGameMode`: cursor back to 0, nothing vibrating, the new state;
   * the click flags are left as they are.
   */
  function AfterStartGameMode(cfg: Config, s: Session, mode: GameState): (r: Session)
    requires s.vibrating.Some? ==> Known(cfg, s.vibrating.value) && |s.positions| == |cfg.colorNames|
    ensures r.state == mode && r.cursor == 0 && r.vibrating == None
    ensures r.frame == s.frame && r.clicks == s.clicks
    ensures r.positions == AfterStopVibrating(cfg, s).positions
  {
    AfterStopVibrating(cfg, s.(cursor := 0)).(state := mode)
  }

  /**
   * The configuration `Start` builds from distinct, non-empty colours and
   * in-range draws is ready, and every note starts at its rest position.
   */
  lemma SetupIsReady(colors: seq<Color>, startPositions: seq<Pos>, draws: seq<nat>)
    requires 2 <= |colors| && Distinct(colors) && |startPositions| == |colors|
    requires forall i :: 0 <= i < |colors| ==> colors[i] != ""
    requires |draws| == NUM_IN_SEQUENCE && forall k :: 0 <= k < |draws| ==> draws[k] < |colors|
    ensures var cfg := Config(colors, ToDictionary(colors, Indexes(|colors|)),
                              ToDictionary(colors, startPositions),
                              GenerateSequence(colors, NUM_IN_SEQUENCE, draws));
            && Ready(cfg)
            && forall i :: 0 <= i < |colors| ==> startPositions[i] == Rest(cfg, i)
  {
    var indexes := Indexes(|colors|);
    var index := ToDictionary(colors, indexes);
    var rest := ToDictionary(colors, startPositions);
    var sequence := GenerateSequence(colors, NUM_IN_SEQUENCE, draws);
    var cfg := Config(colors, index, rest, sequence);
    forall i | 0 <= i < |colors|
      ensures Known(cfg, colors[i]) && index[colors[i]] == i
    {
      assert index[colors[i]] == indexes[i] == i;
    }
    forall k | 0 <= k < |sequence|
      ensures Known(cfg, sequence[k])
    {
      assert sequence[k] == colors[draws[k]];
    }
  }

  /** The session `Start` leaves: SHOW at cursor 0, nothing vibrating, every note at rest. */
  lemma StartedSessionInv(cfg: Config, s: Session)
    requires Ready(cfg) && s.state == Show && s.cursor == 0 && s.vibrating == None && s.frame == 0
    requires |s.positions| == |cfg.colorNames| && |s.clicks| == |cfg.colorNames|
    requires forall i :: 0 <= i < |s.positions| ==> s.positions[i] == Rest(cfg, i)
    ensures Inv(cfg, s)
  {
  }

  /** The invariant does not depend on where the frame counter is below 180. */
  lemma InvAtAnyFrame(cfg: Config, s: Session, frame: nat)
    requires Inv(cfg, s) && frame < STEP_INTERVAL
    ensures Inv(cfg, s.(frame := frame))
  {
  }

  /** All notes at rest when nothing vibrates. */
  lemma AtRestWhenStill(cfg: Config, s: Session, i: nat)
    requires Inv(cfg, s) && s.state != Idle && s.vibrating == None && i < |s.positions|
    ensures s.positions[i] == Rest(cfg, i)
  {
  }

  /** `UpdateShow`: the colour under the cursor starts vibrating and the game waits. */
  function AfterShow(cfg: Config, s: Session): (r: Session)
    requires Inv(cfg, s) && s.state == Show
    ensures Inv(cfg, r)
    ensures r.vibrating == Some(cfg.sequence[s.cursor])
  {
    s.(state := WaitShow, vibrating := Some(cfg.sequence[s.cursor]))
  }

  /**
   * `UpdateWaitShow`: stops the vibration; after the last colour the
   * playback begins at cursor 0, otherwise the next colour is shown.
   */
  function AfterWaitShow(cfg: Config, s: Session): (r: Session)
    requires Inv(cfg, s) && s.state == WaitShow
    ensures Inv(cfg, r)
    ensures r.clicks == s.clicks
  {
    var t := AfterStopVibrating(cfg, s);
    if t.cursor == |cfg.sequence| - 1 then AfterStartGameMode(cfg, t, Play)
    else t.(cursor := t.cursor + 1, state := Show)
  }

  /**
   * `UpdatePlay`: reads the clicks and clears them all. No click or several
   * clicks decide nothing; the colour under the cursor is a match and makes
   * it vibrate; any other colour loses.
   */
  function AfterPlay(cfg: Config, s: Session): (r: Session)
    requires Inv(cfg, s) && s.state == Play
    ensures Inv(cfg, r)
    ensures r.clicks == Unclicked(|s.clicks|)
  {
    var clicked := WhichClicked(cfg.colorNames, s.clicks);
    var t := s.(clicks := Unclicked(|s.clicks|));
    match clicked
    case NoneClicked => t
    case Several => t
    case One(c) =>
      var color := cfg.sequence[s.cursor];
      if c == color then t.(state := WaitPlay, vibrating := Some(color))
      else t.(state := Loss)
  }

  /**
   * `UpdateWaitPlay`: stops the vibration; after the last colour the game
   * is won, otherwise the cursor moves on and the clicks are cleared.
   */
  function AfterWaitPlay(cfg: Config, s: Session): (r: Session)
    requires Inv(cfg, s) && s.state == WaitPlay
    ensures Inv(cfg, r)
    ensures r.vibrating == None && r.frame == s.frame
    ensures r.state == (if s.cursor == |cfg.sequence| - 1 then Win else Play)
    ensures r.cursor == (if s.cursor == |cfg.sequence| - 1 then 0 else s.cursor + 1)
    ensures r.clicks == (if s.cursor == |cfg.sequence| - 1 then s.clicks else Unclicked(|s.clicks|))
  {
    var t := AfterStopVibrating(cfg, s);
    if t.cursor == |cfg.sequence| - 1 then AfterStartGameMode(cfg, t, Win)
    else t.(cursor := t.cursor + 1, clicks := Unclicked(|t.clicks|), state := Play)
  }

  /** The `switch` of `Update`: one handler per state; idle, lost and won games stay put. */
  function AfterTick(cfg: Config, s: Session): (r: Session)
    requires Inv(cfg, s)
    ensures Inv(cfg, r)
    ensures r.frame == s.frame
    ensures Terminal(s.state) ==> r == s
  {
    match s.state
    case Idle => s
    case WaitShow => AfterWaitShow(cfg, s)
    case Show => AfterShow(cfg, s)
    case WaitPlay => AfterWaitPlay(cfg, s)
    case Play => AfterPlay(cfg, s)
    case Loss => s
    case Win => s
  }

  /**
   * `Vibrate`: on frames of the 4-cadence, moves the note of `color` to its
   * rest position plus the drawn offsets on x and z; no other note moves.
   * The source's sign flips test `Next(1) == 1`, which never holds.
   */
  function AfterVibrate(cfg: Config, s: Session, color: Color, nextX: int, nextZ: int): (r: Session)
    requires Known(cfg, color) && |s.positions| == |cfg.colorNames|
    requires 0 <= nextX < JITTER_DRAWS && 0 <= nextZ < JITTER_DRAWS
    ensures r == s.(positions := r.positions) && |r.positions| == |s.positions|
    ensures !OnCadence(s.frame, VIBRATE_INTERVAL) ==> r == s
    ensures OnCadence(s.frame, VIBRATE_INTERVAL) ==>
              Jittered(r.positions[cfg.notesForColor[color]], cfg.initialColorPos[color])
    ensures forall i :: 0 <= i < |s.positions| && i != cfg.notesForColor[color] ==> r.positions[i] == s.positions[i]
    ensures Inv(cfg, s) && s.vibrating == Some(color) ==> Inv(cfg, r)
  {
    if !OnCadence(s.frame, VIBRATE_INTERVAL) then s
    else
      var initial := cfg.initialColorPos[color];
      s.(positions := s.positions[cfg.notesForColor[color] := Pos(initial.x + nextX, initial.y, initial.z + nextZ)])
  }

  /**
   * `Update`: vibrate the active note, count the frame, and on every 180th
   * frame reset the counter and run the state machine.
   */
  function AfterUpdate(cfg: Config, s: Session, nextX: int, nextZ: int): (r: Session)
    requires Inv(cfg, s)
    requires 0 <= nextX < JITTER_DRAWS && 0 <= nextZ < JITTER_DRAWS
    ensures Inv(cfg, r)
    ensures r.frame == if s.frame == STEP_INTERVAL - 1 then 0 else s.frame + 1
    ensures TickDue(s.frame) <==> s.frame == STEP_INTERVAL - 1
    ensures !TickDue(s.frame) ==>
              r.state == s.state && r.cursor == s.cursor && r.vibrating == s.vibrating && r.clicks == s.clicks
    ensures !TickDue(s.frame) && (s.vibrating == None || s.frame % VIBRATE_INTERVAL != 0) ==>
              r.positions == s.positions
    ensures !TickDue(s.frame) && s.vibrating.Some? && s.frame % VIBRATE_INTERVAL == 0 ==>
              var c := s.vibrating.value;
              var rest := cfg.initialColorPos[c];
              r.positions == s.positions[cfg.notesForColor[c] := Pos(rest.x + nextX, rest.y, rest.z + nextZ)]
  {
    var v := if s.vibrating.Some? then AfterVibrate(cfg, s, s.vibrating.value, nextX, nextZ) else s;
    var frame := v.frame + 1;
    if OnCadence(frame, STEP_INTERVAL) then AfterTick(cfg, v.(frame := 0))
    else v.(frame := frame)
  }
}
