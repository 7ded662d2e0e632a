/**
 * Properties of whole runs of the state machine: the 180-frame cadence,
 * the reveal of the sequence, correct and wrong playback, and the states
 * that are never left.
 */
module MachineProperties {
  import opened Wrappers
  import opened Notes
  import opened Machine

  /** n runs of the state machine's `switch`. */
  ghost function Ticks(cfg: Config, s: Session, n: nat): (r: Session)
    requires Inv(cfg, s)
    ensures Inv(cfg, r)
    decreases n
  {
    if n == 0 then s else Ticks(cfg, AfterTick(cfg, s), n - 1)
  }

  /** Offsets drawn for each of a run of updates. */
  ghost predicate ValidDraws(draws: seq<(int, int)>) {
    forall k :: 0 <= k < |draws| ==>
      0 <= draws[k].0 < JITTER_DRAWS && 0 <= draws[k].1 < JITTER_DRAWS
  }

  /** One `Update` call per element of `draws`. */
  ghost function Updates(cfg: Config, s: Session, draws: seq<(int, int)>): (r: Session)
    requires Inv(cfg, s) && ValidDraws(draws)
    ensures Inv(cfg, r)
    decreases |draws|
  {
    if draws == [] then s
    else Updates(cfg, AfterUpdate(cfg, s, draws[0].0, draws[0].1), draws[1..])
  }

  /** The frame counter after n updates from frame f is (f + n) mod 180. */
  lemma {:induction false} UpdatesCountFrames(cfg: Config, s: Session, draws: seq<(int, int)>)
    requires Inv(cfg, s) && ValidDraws(draws)
    ensures Updates(cfg, s, draws).frame == (s.frame + |draws|) % STEP_INTERVAL
    decreases |draws|
  {
    if draws != [] {
      var t := AfterUpdate(cfg, s, draws[0].0, draws[0].1);
      assert t.frame == (s.frame + 1) % STEP_INTERVAL;
      UpdatesCountFrames(cfg, t, draws[1..]);
      ModSum(s.frame + 1, |draws| - 1);
    }
  }

  lemma ModSum(a: nat, b: nat)
    ensures (a % STEP_INTERVAL + b) % STEP_INTERVAL == (a + b) % STEP_INTERVAL
  {
    var q := a / STEP_INTERVAL;
    assert a == STEP_INTERVAL * q + a % STEP_INTERVAL;
    assert a + b == STEP_INTERVAL * q + (a % STEP_INTERVAL + b);
  }

  /**
   * From frame 0, the state machine runs on update call number n exactly
   * when 180 divides n: the "frame 0" clause of the cadence never fires,
   * because the counter is incremented before it is tested.
   */
  lemma {:induction false} StateMachineRunsEvery180th(cfg: Config, s: Session, draws: seq<(int, int)>)
    requires Inv(cfg, s) && ValidDraws(draws) && s.frame == 0
    ensures TickDue(Updates(cfg, s, draws).frame) <==> (|draws| + 1) % STEP_INTERVAL == 0
  {
    UpdatesCountFrames(cfg, s, draws);
    ModSum(|draws|, 1);
  }

  /**
   * From frame 0, update call k+1 jitters the vibrating note exactly when
   * 4 divides k, across the 180-frame resets too, because 4 divides 180:
   * on those calls the note goes to its rest position plus the drawn
   * offsets, and on the others no note moves unless the state machine runs.
   */
  lemma {:induction false} JitterEveryFourthUpdate(cfg: Config, s: Session, draws: seq<(int, int)>, k: nat)
    requires Inv(cfg, s) && s.frame == 0 && ValidDraws(draws) && k < |draws|
    ensures ValidDraws(draws[..k])
    ensures var m := Updates(cfg, s, draws[..k]);
            var r := AfterUpdate(cfg, m, draws[k].0, draws[k].1);
            && (k % VIBRATE_INTERVAL == 0 && m.vibrating.Some? ==>
                  var c := m.vibrating.value;
                  var rest := cfg.initialColorPos[c];
                  r.positions == m.positions[cfg.notesForColor[c] := Pos(rest.x + draws[k].0, rest.y, rest.z + draws[k].1)])
            && (k % VIBRATE_INTERVAL != 0 && !TickDue(m.frame) ==> r.positions == m.positions)
  {
    assert ValidDraws(draws[..k]) by {
      forall i | 0 <= i < k ensures draws[..k][i] == draws[i] { }
    }
    UpdatesCountFrames(cfg, s, draws[..k]);
    var m := Updates(cfg, s, draws[..k]);
    var q := k / STEP_INTERVAL;
    assert k == STEP_INTERVAL * q + m.frame;
    assert k == VIBRATE_INTERVAL * (45 * q) + m.frame;
    assert m.frame % VIBRATE_INTERVAL == k % VIBRATE_INTERVAL;
  }

  /** Idle, lost and won games change nothing but the frame counter, however many frames pass. */
  lemma {:induction false} TerminalStatesAreFinal(cfg: Config, s: Session, draws: seq<(int, int)>)
    requires Inv(cfg, s) && ValidDraws(draws) && Terminal(s.state)
    ensures Updates(cfg, s, draws) == s.(frame := Updates(cfg, s, draws).frame)
    decreases |draws|
  {
    if draws != [] {
      var t := AfterUpdate(cfg, s, draws[0].0, draws[0].1);
      assert t == s.(frame := t.frame);
      TerminalStatesAreFinal(cfg, t, draws[1..]);
    }
  }

  /** What the state machine decides: everything but the frame counter and the note positions. */
  function Control(s: Session): (GameState, nat, Option<Color>, seq<bool>) {
    (s.state, s.cursor, s.vibrating, s.clicks)
  }

  /** Updates over a + b are the updates over a, then over b. */
  lemma {:induction false} UpdatesSplit(cfg: Config, s: Session, a: seq<(int, int)>, b: seq<(int, int)>)
    requires Inv(cfg, s) && ValidDraws(a) && ValidDraws(b)
    ensures ValidDraws(a + b)
    ensures Updates(cfg, s, a + b) == Updates(cfg, Updates(cfg, s, a), b)
    decreases |a|
  {
    if a == [] {
      assert a + b == b;
    } else {
      assert (a + b)[1..] == a[1..] + b;
      UpdatesSplit(cfg, AfterUpdate(cfg, s, a[0].0, a[0].1), a[1..], b);
    }
  }

  /** Updates that do not reach frame 179 only count frames and jitter the vibrating note. */
  lemma {:induction false} QuietUpdates(cfg: Config, s: Session, draws: seq<(int, int)>)
    requires Inv(cfg, s) && ValidDraws(draws) && s.frame + |draws| < STEP_INTERVAL
    ensures Control(Updates(cfg, s, draws)) == Control(s)
    ensures Updates(cfg, s, draws).frame == s.frame + |draws|
    decreases |draws|
  {
    if draws != [] {
      QuietUpdates(cfg, AfterUpdate(cfg, s, draws[0].0, draws[0].1), draws[1..]);
    }
  }

  /** The decisions of a tick do not depend on where the notes are. */
  lemma TickIgnoresPositions(cfg: Config, s: Session, p: seq<Pos>)
    requires Inv(cfg, s) && Inv(cfg, s.(positions := p))
    ensures Control(AfterTick(cfg, s.(positions := p))) == Control(AfterTick(cfg, s))
  {
  }

  lemma {:induction false} TicksIgnorePositions(cfg: Config, s: Session, p: seq<Pos>, n: nat)
    requires Inv(cfg, s) && Inv(cfg, s.(positions := p))
    ensures Control(Ticks(cfg, s.(positions := p), n)) == Control(Ticks(cfg, s, n))
    decreases n
  {
    if n > 0 {
      var t := AfterTick(cfg, s);
      var t' := AfterTick(cfg, s.(positions := p));
      TickIgnoresPositions(cfg, s, p);
      assert t' == t.(positions := t'.positions);
      TicksIgnorePositions(cfg, t, t'.positions, n - 1);
    }
  }

  /**
   * From frame 0, 180 updates run the state machine exactly once, on the
   * last of them: what it decides is what one tick decides, whatever the
   * jitter drawn in between, and the counter is back at 0.
   */
  lemma {:induction false} UpdatesRunOneTick(cfg: Config, s: Session, draws: seq<(int, int)>)
    requires Inv(cfg, s) && ValidDraws(draws) && s.frame == 0 && |draws| == STEP_INTERVAL
    ensures Control(Updates(cfg, s, draws)) == Control(AfterTick(cfg, s))
    ensures Updates(cfg, s, draws).frame == 0
  {
    var quiet, last := draws[..STEP_INTERVAL - 1], draws[STEP_INTERVAL - 1..];
    assert draws == quiet + last;
    UpdatesSplit(cfg, s, quiet, last);
    QuietUpdates(cfg, s, quiet);
    var m := Updates(cfg, s, quiet);
    assert m.(frame := 0) == s.(positions := m.positions);
    var v := if m.vibrating.Some? then AfterVibrate(cfg, m, m.vibrating.value, last[0].0, last[0].1) else m;
    InvAtAnyFrame(cfg, v, 0);
    assert v.(frame := 0) == s.(positions := v.positions);
    TickIgnoresPositions(cfg, s, v.positions);
    assert Updates(cfg, m, last) == AfterUpdate(cfg, m, last[0].0, last[0].1);
  }

  /**
   * From frame 0, 180 n frame-level updates decide what n ticks decide:
   * every lemma about `Ticks` holds of the per-frame `Update` loop.
   */
  lemma {:induction false} UpdatesRunTicks(cfg: Config, s: Session, draws: seq<(int, int)>, n: nat)
    requires Inv(cfg, s) && ValidDraws(draws) && s.frame == 0 && |draws| == STEP_INTERVAL * n
    ensures Control(Updates(cfg, s, draws)) == Control(Ticks(cfg, s, n))
    ensures Updates(cfg, s, draws).frame == 0
    decreases n
  {
    if n > 0 {
      var a, b := draws[..STEP_INTERVAL], draws[STEP_INTERVAL..];
      assert draws == a + b;
      UpdatesSplit(cfg, s, a, b);
      UpdatesRunOneTick(cfg, s, a);
      var m := Updates(cfg, s, a);
      var t := AfterTick(cfg, s);
      assert m == t.(positions := m.positions);
      UpdatesRunTicks(cfg, m, b, n - 1);
      TicksIgnorePositions(cfg, t, m.positions, n - 1);
    }
  }

  /** One SHOW tick and one WAIT_SHOW tick: the next colour, or playback from 0 after the last. */
  lemma ShowRound(cfg: Config, s: Session)
    requires Inv(cfg, s) && s.state == Show
    ensures AfterTick(cfg, s) == s.(state := WaitShow, vibrating := Some(cfg.sequence[s.cursor]))
    ensures AfterTick(cfg, AfterTick(cfg, s)) ==
              if s.cursor == |cfg.sequence| - 1 then s.(state := Play, cursor := 0)
              else s.(cursor := s.cursor + 1)
  {
    var c := cfg.sequence[s.cursor];
    var idx := cfg.notesForColor[c];
    AtRestWhenStill(cfg, s, idx);
    assert s.positions[idx := cfg.initialColorPos[c]] == s.positions;
  }

  /**
   * The reveal shows index cursor+j on ticks 2j (SHOW) and 2j+1
   * (WAIT_SHOW, that colour vibrating), and touches nothing else.
   */
  lemma {:induction false} RevealVisitsEachIndex(cfg: Config, s: Session, j: nat)
    requires Inv(cfg, s) && s.state == Show && s.cursor + j < |cfg.sequence|
    ensures Ticks(cfg, s, 2 * j) == s.(cursor := s.cursor + j)
    ensures Ticks(cfg, s, 2 * j + 1) ==
              s.(state := WaitShow, cursor := s.cursor + j, vibrating := Some(cfg.sequence[s.cursor + j]))
    decreases j
  {
    ShowRound(cfg, s);
    if j > 0 {
      var t := AfterTick(cfg, AfterTick(cfg, s));
      RevealVisitsEachIndex(cfg, t, j - 1);
      assert Ticks(cfg, s, 2 * j) == Ticks(cfg, t, 2 * (j - 1));
      assert Ticks(cfg, s, 2 * j + 1) == Ticks(cfg, t, 2 * (j - 1) + 1);
    }
  }

  /**
   * After two ticks per remaining colour the reveal is over: PLAY at cursor
   * 0, nothing vibrating, and the click flags exactly as they were, so a
   * click made during the reveal is read by the first PLAY tick.
   */
  lemma {:induction false} RevealEndsInPlay(cfg: Config, s: Session)
    requires Inv(cfg, s) && s.state == Show
    ensures Ticks(cfg, s, 2 * (|cfg.sequence| - s.cursor)) == s.(state := Play, cursor := 0)
    decreases |cfg.sequence| - s.cursor
  {
    ShowRound(cfg, s);
    var t := AfterTick(cfg, AfterTick(cfg, s));
    if s.cursor < |cfg.sequence| - 1 {
      RevealEndsInPlay(cfg, t);
    }
    assert Ticks(cfg, s, 2 * (|cfg.sequence| - s.cursor)) == Ticks(cfg, t, 2 * (|cfg.sequence| - s.cursor) - 2);
  }

  /** The reveal, frame by frame: 360 updates per remaining colour from frame 0 end in PLAY at 0, flags untouched. */
  lemma {:induction false} RevealOverFrames(cfg: Config, s: Session, draws: seq<(int, int)>)
    requires Inv(cfg, s) && s.state == Show && s.frame == 0 && ValidDraws(draws)
    requires |draws| == STEP_INTERVAL * (2 * (|cfg.sequence| - s.cursor))
    ensures Control(Updates(cfg, s, draws)) == (Play, 0, None, s.clicks)
  {
    UpdatesRunTicks(cfg, s, draws, 2 * (|cfg.sequence| - s.cursor));
    RevealEndsInPlay(cfg, s);
  }

  /** The flags of a player who clicked the note of colour c and nothing else. */
  function Press(cfg: Config, c: Color): (flags: seq<bool>)
    requires Known(cfg, c)
    ensures |flags| == |cfg.colorNames|
  {
    seq(|cfg.colorNames|, i => i == cfg.notesForColor[c])
  }

  lemma PressResolves(cfg: Config, c: Color)
    requires Known(cfg, c)
    ensures WhichClicked(cfg.colorNames, Press(cfg, c)) == One(c)
  {
    var flags := Press(cfg, c);
    var i := cfg.notesForColor[c];
    assert flags[i] && forall j :: 0 <= j < |flags| && j != i ==> !flags[j];
    WhichClickedOne(cfg.colorNames, flags, c);
  }

  /** A PLAY tick with no flag set changes nothing. */
  lemma PlayWaitsForAClick(cfg: Config, s: Session)
    requires Inv(cfg, s) && s.state == Play
    requires forall i :: 0 <= i < |s.clicks| ==> !s.clicks[i]
    ensures AfterTick(cfg, s) == s
  {
    WhichClickedNone(cfg.colorNames, s.clicks);
    assert Unclicked(|s.clicks|) == s.clicks;
  }

  /** A PLAY tick with two or more flags set only clears the flags. */
  lemma PlayIgnoresSeveralClicks(cfg: Config, s: Session, i: nat, j: nat)
    requires Inv(cfg, s) && s.state == Play
    requires i < j < |s.clicks| && s.clicks[i] && s.clicks[j]
    ensures AfterTick(cfg, s) == s.(clicks := Unclicked(|s.clicks|))
  {
    WhichClickedSeveral(cfg.colorNames, s.clicks);
  }

  /**
   * A PLAY tick with exactly one flag set, at note i: the colour under the
   * cursor starts the confirmation vibration (WAIT_PLAY); any other colour
   * loses. The flags are cleared either way.
   */
  lemma PlayJudgesOneClick(cfg: Config, s: Session, i: nat)
    requires Inv(cfg, s) && s.state == Play
    requires i < |s.clicks| && s.clicks[i]
    requires forall j :: 0 <= j < |s.clicks| && j != i ==> !s.clicks[j]
    ensures AfterTick(cfg, s) ==
              if cfg.colorNames[i] == cfg.sequence[s.cursor]
              then s.(state := WaitPlay, vibrating := Some(cfg.sequence[s.cursor]), clicks := Unclicked(|s.clicks|))
              else s.(state := Loss, clicks := Unclicked(|s.clicks|))
  {
    WhichClickedOne(cfg.colorNames, s.clicks, cfg.colorNames[i]);
  }

  /**
   * One round of correct play from PLAY: the note under the cursor clicked
   * alone, then the PLAY and WAIT_PLAY ticks.
   */
  ghost function Round(cfg: Config, s: Session): (r: Session)
    requires Inv(cfg, s) && s.state == Play
    ensures Inv(cfg, r)
  {
    Ticks(cfg, s.(clicks := Press(cfg, cfg.sequence[s.cursor])), 2)
  }

  /** A round of correct play moves to the next colour, or wins after the last one. */
  lemma RoundAdvances(cfg: Config, s: Session)
    requires Inv(cfg, s) && s.state == Play
    ensures Round(cfg, s) ==
              if s.cursor == |cfg.sequence| - 1 then s.(state := Win, cursor := 0, clicks := Unclicked(|s.clicks|))
              else s.(cursor := s.cursor + 1, clicks := Unclicked(|s.clicks|))
  {
    var c := cfg.sequence[s.cursor];
    var p := s.(clicks := Press(cfg, c));
    PressResolves(cfg, c);
    var w := AfterTick(cfg, p);
    assert w == p.(state := WaitPlay, vibrating := Some(c), clicks := Unclicked(|s.clicks|));
    var idx := cfg.notesForColor[c];
    AtRestWhenStill(cfg, s, idx);
    assert s.positions[idx := cfg.initialColorPos[c]] == s.positions;
  }

  /** n rounds of correct play, stopping once the game has left PLAY. */
  ghost function Rounds(cfg: Config, s: Session, n: nat): (r: Session)
    requires Inv(cfg, s)
    ensures Inv(cfg, r)
    decreases n
  {
    if n == 0 || s.state != Play then s else Rounds(cfg, Round(cfg, s), n - 1)
  }

  /**
   * Correct play from PLAY at cursor k: after j < L - k rounds the game is
   * in PLAY at cursor k + j; after exactly L - k rounds it is won.
   */
  lemma {:induction false} CorrectPlayWins(cfg: Config, s: Session, j: nat)
    requires Inv(cfg, s) && s.state == Play && 0 < j <= |cfg.sequence| - s.cursor
    ensures Rounds(cfg, s, j) ==
              if j == |cfg.sequence| - s.cursor then s.(state := Win, cursor := 0, clicks := Unclicked(|s.clicks|))
              else s.(cursor := s.cursor + j, clicks := Unclicked(|s.clicks|))
    decreases j
  {
    RoundAdvances(cfg, s);
    var t := Round(cfg, s);
    if j > 1 {
      assert t.state == Play;
      assert Rounds(cfg, s, j) == Rounds(cfg, t, j - 1);
      CorrectPlayWins(cfg, t, j - 1);
    } else {
      assert Rounds(cfg, s, 1) == Rounds(cfg, t, 0) == t;
    }
  }

  /** A round of correct play, frame by frame: the click, then 360 updates from frame 0. */
  lemma {:induction false} RoundOverFrames(cfg: Config, s: Session, draws: seq<(int, int)>)
    requires Inv(cfg, s) && s.state == Play && s.frame == 0 && ValidDraws(draws)
    requires |draws| == 2 * STEP_INTERVAL
    ensures s.cursor == |cfg.sequence| - 1 ==>
              Control(Updates(cfg, s.(clicks := Press(cfg, cfg.sequence[s.cursor])), draws)) == (Win, 0, None, Unclicked(|s.clicks|))
    ensures s.cursor < |cfg.sequence| - 1 ==>
              Control(Updates(cfg, s.(clicks := Press(cfg, cfg.sequence[s.cursor])), draws)) == (Play, s.cursor + 1, None, Unclicked(|s.clicks|))
  {
    UpdatesRunTicks(cfg, s.(clicks := Press(cfg, cfg.sequence[s.cursor])), draws, 2);
    RoundAdvances(cfg, s);
  }

  /**
   * A wrong colour clicked alone in PLAY loses the game at the next tick,
   * which, frame by frame, is the 180th update from frame 0; the game then
   * stays lost whatever comes after.
   */
  lemma {:induction false} WrongClickLoses(cfg: Config, s: Session, i: nat, draws: seq<(int, int)>, later: seq<(int, int)>)
    requires Inv(cfg, s) && s.state == Play && s.frame == 0 && ValidDraws(draws) && ValidDraws(later)
    requires i < |cfg.colorNames| && cfg.colorNames[i] != cfg.sequence[s.cursor]
    requires |draws| == STEP_INTERVAL
    ensures AfterTick(cfg, s.(clicks := Press(cfg, cfg.colorNames[i]))).state == Loss
    ensures Updates(cfg, s.(clicks := Press(cfg, cfg.colorNames[i])), draws).state == Loss
    ensures Updates(cfg, Updates(cfg, s.(clicks := Press(cfg, cfg.colorNames[i])), draws), later).state == Loss
  {
    var p := s.(clicks := Press(cfg, cfg.colorNames[i]));
    PressResolves(cfg, cfg.colorNames[i]);
    UpdatesRunOneTick(cfg, p, draws);
    TerminalStatesAreFinal(cfg, Updates(cfg, p, draws), later);
  }
}
