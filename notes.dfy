/**
 * The colour catalogue of the game: how a note's colour is read off its
 * name, the dictionaries keyed by colour, the random sequence of colours,
 * and which note the player clicked.
 */
module Notes {

  /** A colour is what is left of a note's name once its prefix is dropped. */
  type Color = string

  /** The prefix every note name carries; its length is what is stripped. */
  const NOTE_PREFIX: string := "MusicNote"

  /** `GetNoteColor`: the name without its first |NOTE_PREFIX| characters. */
  function GetNoteColor(name: string): (color: Color)
    requires |NOTE_PREFIX| <= |name|
    ensures |color| + |NOTE_PREFIX| == |name|
    ensures name == name[..|NOTE_PREFIX|] + color
  {
    name[|NOTE_PREFIX|..]
  }

  /** Naming a note after a colour and reading the colour back gives the colour. */
  lemma GetNoteColorOfNoteName(color: Color)
    ensures GetNoteColor(NOTE_PREFIX + color) == color
  {
    assert (NOTE_PREFIX + color)[|NOTE_PREFIX|..] == color;
  }

  /**
   * Every name long enough to strip the prefix and still leave a colour:
   * no note is called exactly "MusicNote", so no colour is the empty string,
   * which the click resolver uses as its "several clicked" sentinel.
   */
  predicate WellNamed(names: seq<string>) {
    forall i :: 0 <= i < |names| ==> |NOTE_PREFIX| < |names[i]|
  }

  predicate Distinct(colors: seq<Color>) {
    forall i, j :: 0 <= i < j < |colors| ==> colors[i] != colors[j]
  }

  /** `_colorNames`: the colour of every note, in the order of the notes. */
  function ColorNames(names: seq<string>): (colors: seq<Color>)
    requires WellNamed(names)
    ensures |colors| == |names|
    ensures forall i :: 0 <= i < |names| ==> colors[i] == GetNoteColor(names[i]) && colors[i] != ""
  {
    seq(|names|, i requires 0 <= i < |names| => GetNoteColor(names[i]))
  }

  /** The places 0 .. n-1 of a list of length n. */
  function Indexes(n: nat): (r: seq<nat>)
    ensures |r| == n && forall i :: 0 <= i < n ==> r[i] == i
  {
    seq(n, i => i)
  }

  /** `ToDictionary`: keys must be distinct; each key maps to the value at its place. */
  function ToDictionary<V>(keys: seq<Color>, values: seq<V>): (m: map<Color, V>)
    requires |values| == |keys|
    requires Distinct(keys)
    ensures forall i :: 0 <= i < |keys| ==> keys[i] in m && m[keys[i]] == values[i]
    ensures forall k :: k in m ==> k in keys
  {
    if keys == [] then map[]
    else ToDictionary(keys[1..], values[1..])[keys[0] := values[0]]
  }

  /**
   * `GenerateSequence`: `num` draws from the colour list. Draw k is the index
   * of the colour that the k-th random shuffle put first; the caller
   * supplies it, so it must index the list.
   */
  function GenerateSequence(colors: seq<Color>, num: nat, draws: seq<nat>): (s: seq<Color>)
    requires |draws| == num
    requires forall k :: 0 <= k < num ==> draws[k] < |colors|
    ensures |s| == num
    ensures forall k :: 0 <= k < num ==> s[k] == colors[draws[k]]
    ensures forall k :: 0 <= k < num ==> s[k] in colors
    decreases num
  {
    if num == 0 then []
    else GenerateSequence(colors, num - 1, draws[..num - 1]) + [colors[draws[num - 1]]]
  }

  /** An index of `x` in `colors`. */
  function IndexOf(colors: seq<Color>, x: Color): (i: nat)
    requires x in colors
    ensures i < |colors| && colors[i] == x
  {
    if colors[0] == x then 0 else 1 + IndexOf(colors[1..], x)
  }

  /**
   * Nothing narrows what a sequence may be: every sequence of catalogue
   * colours, repeats included, comes out of some choice of draws.
   */
  lemma {:induction false} EverySequenceCanBeDrawn(colors: seq<Color>, s: seq<Color>)
    requires forall k :: 0 <= k < |s| ==> s[k] in colors
    ensures exists draws: seq<nat> ::
              && |draws| == |s|
              && (forall k :: 0 <= k < |s| ==> draws[k] < |colors|)
              && GenerateSequence(colors, |s|, draws) == s
  {
    var draws := seq(|s|, k requires 0 <= k < |s| => IndexOf(colors, s[k]));
    var g := GenerateSequence(colors, |s|, draws);
    assert forall k :: 0 <= k < |s| ==> g[k] == s[k];
    assert g == s;
  }

  /** What the click resolver returns: no click, exactly one colour, or several. */
  datatype Clicked = NoneClicked | One(color: Color) | Several

  /** The colours of the clicked notes, in the order of the notes. */
  function ClickedColors(colors: seq<Color>, flags: seq<bool>): (r: seq<Color>)
    requires |flags| == |colors|
    ensures |r| <= |colors|
    ensures forall k :: 0 <= k < |r| ==> r[k] in colors
  {
    if colors == [] then []
    else (if flags[0] then [colors[0]] else []) + ClickedColors(colors[1..], flags[1..])
  }

  /**
   * `WhichClicked`: several clicked notes give `Several` (the source's ""),
   * none gives `NoneClicked` (the source's null), otherwise the one colour.
   */
  function WhichClicked(colors: seq<Color>, flags: seq<bool>): (r: Clicked)
    requires |flags| == |colors|
    ensures r.One? ==> r.color in colors
    ensures r.Several? ==> 2 <= |colors|
  {
    var clicked := ClickedColors(colors, flags);
    if |clicked| > 1 then Several
    else if clicked == [] then NoneClicked
    else One(clicked[0])
  }

  lemma {:induction false} ClickedColorsMembers(colors: seq<Color>, flags: seq<bool>, x: Color)
    requires |flags| == |colors|
    ensures x in ClickedColors(colors, flags) <==>
            exists i :: 0 <= i < |flags| && flags[i] && colors[i] == x
  {
    if colors != [] {
      ClickedColorsMembers(colors[1..], flags[1..], x);
      if x in ClickedColors(colors[1..], flags[1..]) {
        var i :| 0 <= i < |flags[1..]| && flags[1..][i] && colors[1..][i] == x;
        assert flags[i + 1] && colors[i + 1] == x;
      }
      if exists i :: 0 <= i < |flags| && flags[i] && colors[i] == x {
        var i :| 0 <= i < |flags| && flags[i] && colors[i] == x;
        if i > 0 {
          assert flags[1..][i - 1] && colors[1..][i - 1] == x;
        }
      }
    }
  }

  lemma {:induction false} NoneSetNoneClicked(colors: seq<Color>, flags: seq<bool>)
    requires |flags| == |colors|
    requires forall i :: 0 <= i < |flags| ==> !flags[i]
    ensures ClickedColors(colors, flags) == []
  {
    if colors != [] {
      NoneSetNoneClicked(colors[1..], flags[1..]);
    }
  }

  lemma {:induction false} OneSetOneClicked(colors: seq<Color>, flags: seq<bool>, i: nat)
    requires |flags| == |colors| && i < |flags| && flags[i]
    requires forall j :: 0 <= j < |flags| && j != i ==> !flags[j]
    ensures ClickedColors(colors, flags) == [colors[i]]
  {
    if i == 0 {
      NoneSetNoneClicked(colors[1..], flags[1..]);
    } else {
      OneSetOneClicked(colors[1..], flags[1..], i - 1);
    }
  }

  lemma {:induction false} TwoSetSeveralClicked(colors: seq<Color>, flags: seq<bool>, i: nat, j: nat)
    requires |flags| == |colors| && i < j < |flags| && flags[i] && flags[j]
    ensures |ClickedColors(colors, flags)| > 1
  {
    if i == 0 {
      ClickedColorsMembers(colors[1..], flags[1..], colors[j]);
      assert flags[1..][j - 1] && colors[1..][j - 1] == colors[j];
    } else {
      TwoSetSeveralClicked(colors[1..], flags[1..], i - 1, j - 1);
    }
  }

  /** The resolver reports no click exactly when no flag is set. */
  lemma WhichClickedNone(colors: seq<Color>, flags: seq<bool>)
    requires |flags| == |colors|
    ensures WhichClicked(colors, flags) == NoneClicked <==> forall i :: 0 <= i < |flags| ==> !flags[i]
  {
    if forall i :: 0 <= i < |flags| ==> !flags[i] {
      NoneSetNoneClicked(colors, flags);
    } else {
      var i :| 0 <= i < |flags| && flags[i];
      ClickedColorsMembers(colors, flags, colors[i]);
    }
  }

  /** The resolver reports colour c exactly when one flag is set, at a note of colour c. */
  lemma WhichClickedOne(colors: seq<Color>, flags: seq<bool>, c: Color)
    requires |flags| == |colors|
    ensures WhichClicked(colors, flags) == One(c) <==>
            exists i :: && 0 <= i < |flags| && flags[i] && colors[i] == c
                        && forall j :: 0 <= j < |flags| && j != i ==> !flags[j]
  {
    if WhichClicked(colors, flags) == One(c) {
      var clicked := ClickedColors(colors, flags);
      assert clicked == [c];
      ClickedColorsMembers(colors, flags, c);
      var i :| 0 <= i < |flags| && flags[i] && colors[i] == c;
      forall j | 0 <= j < |flags| && j != i
        ensures !flags[j]
      {
        if flags[j] {
          if i < j { TwoSetSeveralClicked(colors, flags, i, j); }
          else { TwoSetSeveralClicked(colors, flags, j, i); }
        }
      }
    }
    if exists i :: && 0 <= i < |flags| && flags[i] && colors[i] == c
                   && forall j :: 0 <= j < |flags| && j != i ==> !flags[j] {
      var i :| && 0 <= i < |flags| && flags[i] && colors[i] == c
               && forall j :: 0 <= j < |flags| && j != i ==> !flags[j];
      OneSetOneClicked(colors, flags, i);
    }
  }

  /** The resolver reports several clicks exactly when two or more flags are set. */
  lemma WhichClickedSeveral(colors: seq<Color>, flags: seq<bool>)
    requires |flags| == |colors|
    ensures WhichClicked(colors, flags) == Several <==>
            exists i, j :: 0 <= i < j < |flags| && flags[i] && flags[j]
  {
    if exists i, j :: 0 <= i < j < |flags| && flags[i] && flags[j] {
      var i, j :| 0 <= i < j < |flags| && flags[i] && flags[j];
      TwoSetSeveralClicked(colors, flags, i, j);
    } else if WhichClicked(colors, flags) == Several {
      var clicked := ClickedColors(colors, flags);
      ClickedColorsMembers(colors, flags, clicked[0]);
      var i :| 0 <= i < |flags| && flags[i] && colors[i] == clicked[0];
      assert forall j :: 0 <= j < |flags| && j != i ==> !flags[j];
      OneSetOneClicked(colors, flags, i);
    }
  }
}
