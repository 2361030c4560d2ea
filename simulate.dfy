/** The simulation driver of the histogram filter
    (3_3_2D_Histogram_Filter/simulate.py): a robot on a coloured toroidal
    world, its belief grid, its true and previous pose, and the colour
    alphabet of the world. */
module Simulate {
  import opened Outcomes
  import opened Grid
  import opened Helpers
  import opened Localizer

  // ---------------------------------------------------------------------
  // get_colors: the colours of the world in first-occurrence order
  // ---------------------------------------------------------------------

  /** The cells of the world in row-major order. */
  function Flatten(grid: World): seq<string>
  {
    if |grid| == 0 then [] else Flatten(grid[..|grid| - 1]) + grid[|grid| - 1]
  }

  /** s without repetitions, each element kept at its first occurrence. */
  function Dedup(s: seq<string>): seq<string>
  {
    if |s| == 0 then []
    else
      var d := Dedup(s[..|s| - 1]);
      if s[|s| - 1] in d then d else d + [s[|s| - 1]]
  }

  /** The colour alphabet `get_colors` builds. */
  function Colors(grid: World): seq<string>
  {
    Dedup(Flatten(grid))
  }

  predicate NoDuplicates(s: seq<string>)
  {
    forall a, b :: 0 <= a < b < |s| ==> s[a] != s[b]
  }

  lemma FlattenPrefix(grid: World, i: int)
    requires 0 <= i < |grid|
    ensures Flatten(grid[..i + 1]) == Flatten(grid[..i]) + grid[i]
  {
    assert grid[..i + 1][..i] == grid[..i];
  }

  /** Every cell of the world is among the flattened cells ... */
  lemma {:induction false} FlattenCell(grid: World, i: int, j: int)
    requires 0 <= i < |grid| && 0 <= j < |grid[i]|
    ensures grid[i][j] in Flatten(grid)
  {
    var n := |grid|;
    if i < n - 1 {
      FlattenCell(grid[..n - 1], i, j);
    } else {
      assert Flatten(grid)[|Flatten(grid[..n - 1])| + j] == grid[i][j];
    }
  }

  /** ... and every flattened cell is a cell of the world. */
  lemma {:induction false} FlattenMember(grid: World, c: string)
    requires c in Flatten(grid)
    ensures exists i, j :: 0 <= i < |grid| && 0 <= j < |grid[i]| && grid[i][j] == c
  {
    var n := |grid|;
    if c in Flatten(grid[..n - 1]) {
      FlattenMember(grid[..n - 1], c);
      var i, j :| 0 <= i < n - 1 && 0 <= j < |grid[..n - 1][i]| && grid[..n - 1][i][j] == c;
      assert grid[i][j] == c;
    } else {
      var k :| 0 <= k < |Flatten(grid)| && Flatten(grid)[k] == c;
      var j := k - |Flatten(grid[..n - 1])|;
      assert grid[n - 1][j] == c;
    }
  }

  lemma DedupSnoc(s: seq<string>, c: string)
    ensures Dedup(s + [c]) == if c in Dedup(s) then Dedup(s) else Dedup(s) + [c]
  {
    assert (s + [c])[..|s|] == s;
  }

  /** Dedup keeps exactly the elements of s. */
  lemma {:induction false} DedupMembers(s: seq<string>)
    ensures forall c :: c in Dedup(s) <==> c in s
  {
    if |s| > 0 {
      var n := |s|;
      DedupMembers(s[..n - 1]);
      assert s == s[..n - 1] + [s[n - 1]];
    }
  }

  /** Dedup holds no element twice. */
  lemma {:induction false} DedupNoDuplicates(s: seq<string>)
    ensures NoDuplicates(Dedup(s))
  {
    if |s| > 0 {
      DedupNoDuplicates(s[..|s| - 1]);
    }
  }

  /** idx[k] is the position where d[k] first occurs in s. */
  predicate FirstOccurrences(s: seq<string>, d: seq<string>, idx: seq<int>)
  {
    |idx| == |d| &&
    forall k :: 0 <= k < |idx| ==> 0 <= idx[k] < |s| && s[idx[k]] == d[k] && d[k] !in s[..idx[k]]
  }

  predicate StrictlyIncreasing(idx: seq<int>)
  {
    forall a, b :: 0 <= a < b < |idx| ==> idx[a] < idx[b]
  }

  /** Dedup lists the elements in the order of their first occurrence: the
      k-th element occurs first at idx[k], and idx is strictly increasing. */
  lemma {:induction false} DedupFirstOccurrence(s: seq<string>) returns (idx: seq<int>)
    ensures FirstOccurrences(s, Dedup(s), idx) && StrictlyIncreasing(idx)
  {
    if |s| == 0 {
      idx := [];
    } else {
      var n := |s|;
      var prev := DedupFirstOccurrence(s[..n - 1]);
      FirstOccurrencesExtend(s, Dedup(s[..n - 1]), prev);
      if s[n - 1] in Dedup(s[..n - 1]) {
        idx := prev;
      } else {
        DedupMembers(s[..n - 1]);
        idx := prev + [n - 1];
        FirstOccurrencesAppend(s, Dedup(s[..n - 1]), prev);
      }
    }
  }

  lemma FirstOccurrencesExtend(s: seq<string>, d: seq<string>, idx: seq<int>)
    requires |s| > 0 && FirstOccurrences(s[..|s| - 1], d, idx)
    ensures FirstOccurrences(s, d, idx)
    ensures forall k :: 0 <= k < |idx| ==> idx[k] < |s| - 1
  {
    forall k | 0 <= k < |idx|
      ensures s[..idx[k]] == s[..|s| - 1][..idx[k]]
    {
    }
  }

  lemma FirstOccurrencesAppend(s: seq<string>, d: seq<string>, idx: seq<int>)
    requires |s| > 0 && FirstOccurrences(s, d, idx) && StrictlyIncreasing(idx)
    requires forall k :: 0 <= k < |idx| ==> idx[k] < |s| - 1
    requires s[|s| - 1] !in s[..|s| - 1]
    ensures FirstOccurrences(s, d + [s[|s| - 1]], idx + [|s| - 1])
    ensures StrictlyIncreasing(idx + [|s| - 1])
  {
  }

  /** The colours of the world are exactly its cell colours. */
  lemma ColorsComplete(grid: World, i: int, j: int)
    requires 0 <= i < |grid| && 0 <= j < |grid[i]|
    ensures grid[i][j] in Colors(grid)
  {
    FlattenCell(grid, i, j);
    DedupMembers(Flatten(grid));
  }

  lemma ColorsSound(grid: World, c: string)
    requires c in Colors(grid)
    ensures exists i, j :: 0 <= i < |grid| && 0 <= j < |grid[i]| && grid[i][j] == c
  {
    DedupMembers(Flatten(grid));
    FlattenMember(grid, c);
  }

  // ---------------------------------------------------------------------
  // get_observed_color: the colours a misreading may report
  // ---------------------------------------------------------------------

  /** The `possible_colors` list: the colours other than t, de-duplicated. */
  function OtherColors(colors: seq<string>, t: string): (r: seq<string>)
    ensures t !in r && NoDuplicates(r)
  {
    if |colors| == 0 then []
    else
      var p := OtherColors(colors[..|colors| - 1], t);
      var c := colors[|colors| - 1];
      if c != t && c !in p then p + [c] else p
  }

  lemma {:induction false} OtherColorsMembers(colors: seq<string>, t: string)
    ensures forall c :: c in OtherColors(colors, t) <==> c in colors && c != t
  {
    if |colors| > 0 {
      var n := |colors|;
      OtherColorsMembers(colors[..n - 1], t);
      assert colors == colors[..n - 1] + [colors[n - 1]];
    }
  }

  /** In a world of a single colour a misreading has nothing to choose from. */
  lemma SingleColourNoChoice(grid: World, t: string)
    requires forall i, j :: 0 <= i < |grid| && 0 <= j < |grid[i]| ==> grid[i][j] == t
    ensures OtherColors(Colors(grid), t) == []
  {
    OtherColorsMembers(Colors(grid), t);
    if OtherColors(Colors(grid), t) != [] {
      var c := OtherColors(Colors(grid), t)[0];
      ColorsSound(grid, c);
    }
  }

  /** The steps of a run, as far as they completed: the `random.random()`
      draw of a sense step and the colour it observed, and the offsets of a
      move. */
  datatype Step = Sensed(u: real, color: string) | Moved(dy: int, dx: int)

  /** The part of a simulation that sense and move change. */
  datatype Snapshot = Snapshot(beliefs: Grid, truePose: Pos, prevPose: Pos)

  /** completed rounds of sense-then-move, each move a unit step. */
  ghost predicate Rounds(steps: seq<Step>, rounds: nat)
  {
    && |steps| == 2 * rounds
    && (forall m :: 0 <= m < |steps| && m % 2 == 0 ==> steps[m].Sensed?)
    && (forall m :: 0 <= m < |steps| && m % 2 == 1 ==>
          steps[m].Moved? && -1 <= steps[m].dy <= 1 && -1 <= steps[m].dx <= 1)
  }

  /** Completed rounds followed by one more round are completed rounds. */
  lemma RoundsSnoc(all: seq<Step>, rounds: nat, prefix: seq<Step>, last: seq<Step>)
    requires Rounds(prefix, rounds) && Rounds(last, 1) && all == prefix + last
    ensures Rounds(all, rounds + 1)
  {
    forall m | 0 <= m < |all|
      ensures all[m] == if m < |prefix| then prefix[m] else last[m - |prefix|]
    {
    }
  }

  /** The sense step of the k-th of the rounds took draws[k]. */
  ghost predicate DrawsUsed(steps: seq<Step>, draws: seq<real>)
  {
    && |steps| == 2 * |draws|
    && forall k :: 0 <= k < |draws| ==> steps[2 * k].Sensed? && steps[2 * k].u == draws[k]
  }

  /** Rounds that used draws, followed by a round whose sense step took v,
      used draws + [v]. */
  lemma DrawsSnoc(prefix: seq<Step>, draws: seq<real>, last: seq<Step>, v: real)
    requires DrawsUsed(prefix, draws)
    requires |last| == 2 && last[0].Sensed? && last[0].u == v
    ensures DrawsUsed(prefix + last, draws + [v])
  {
    var all := prefix + last;
    forall k | 0 <= k < |draws| + 1
      ensures all[2 * k].Sensed? && all[2 * k].u == (draws + [v])[k]
    {
      if k < |draws| {
        assert all[2 * k] == prefix[2 * k];
      } else {
        assert all[2 * k] == last[0];
      }
    }
  }

  /** i rounds logged after start, followed by one more round taking
      draws[i], are i + 1 rounds taking draws[..i + 1]. */
  lemma RunExtend(start: seq<Step>, before: seq<Step>, log: seq<Step>, draws: seq<real>, i: nat, c: string)
    requires i < |draws|
    requires |before| == |start| + 2 * i && before[..|start|] == start
    requires Rounds(before[|start|..], i) && DrawsUsed(before[|start|..], draws[..i])
    requires |log| == |before| + 2 && log[..|before|] == before
    requires Rounds(log[|before|..], 1) && log[|before|] == Sensed(draws[i], c)
    ensures |log| == |start| + 2 * (i + 1) && log[..|start|] == start
    ensures Rounds(log[|start|..], i + 1) && DrawsUsed(log[|start|..], draws[..i + 1])
  {
    assert log[|start|..] == before[|start|..] + log[|before|..];
    RoundsSnoc(log[|start|..], i, before[|start|..], log[|before|..]);
    DrawsSnoc(before[|start|..], draws[..i], log[|before|..], draws[i]);
    assert draws[..i + 1] == draws[..i] + [draws[i]];
  }

  lemma RoundsOne(log: seq<Step>, start: seq<Step>, u: real, color: string, dy: int, dx: int)
    requires log == start + [Sensed(u, color)] + [Moved(dy, dx)]
    requires -1 <= dy <= 1 && -1 <= dx <= 1
    ensures |log| == |start| + 2 && log[..|start|] == start && Rounds(log[|start|..], 1)
    ensures log[|start|..] == [Sensed(u, color), Moved(dy, dx)]
  {
    assert log[|start|..] == [Sensed(u, color), Moved(dy, dx)];
  }

  /** The exception, if any, that `localizer.sense` raises for the observed
      colour c on beliefs b: IndexError when a read falls outside the world
      or the beliefs, ZeroDivisionError when `normalize` meets a posterior
      with cells but no mass. */
  function SenseError(c: string, grid: World, b: Grid, pHit: real, pMiss: real): Option<Exception>
  {
    if !SenseFits(grid, b) then Some(IndexError)
    else
      var post := Posterior(c, grid, b, pHit, pMiss);
      if Total(post) != 0.0 || NoCells(post) then None else Some(ZeroDivisionError)
  }

  /** A copy of the belief grid (`deepcopy`). */
  method CopyGrid(a: array2<real>) returns (c: array2<real>)
    ensures fresh(c) && c.Length0 == a.Length0 && c.Length1 == a.Length1
    ensures ToSeq(c) == ToSeq(a)
  {
    c := new real[a.Length0, a.Length1];
    for i := 0 to a.Length0
      invariant forall p, q :: 0 <= p < i && 0 <= q < a.Length1 ==> c[p, q] == a[p, q]
    {
      for j := 0 to a.Length1
        invariant forall p, q :: 0 <= p < i && 0 <= q < a.Length1 ==> c[p, q] == a[p, q]
        invariant forall q :: 0 <= q < j ==> c[i, q] == a[i, q]
      {
        c[i, j] := a[i, j];
      }
    }
    GridEq(ToSeq(c), ToSeq(a));
  }

  /** The belief update of `Simulation.sense`: the localizer's sensor update
      of a copy of the beliefs, or the copy itself should the update come
      back empty. */
  method SensedBeliefs(color: string, grid: World, beliefs: array2<real>, pHit: real, pMiss: real)
    returns (res: Result<array2<real>>)
    requires |grid| > 0 && |grid[0]| > 0
    requires beliefs.Length0 == |grid| && beliefs.Length1 == |grid[0]|
    ensures res.Err? <==> SenseError(color, grid, ToSeq(beliefs), pHit, pMiss).Some?
    ensures res.Err? ==> SenseError(color, grid, ToSeq(beliefs), pHit, pMiss) == Some(res.error)
    ensures res.Ok? ==>
      && SenseFits(grid, ToSeq(beliefs))
      && Total(Posterior(color, grid, ToSeq(beliefs), pHit, pMiss)) != 0.0
      && fresh(res.value) && res.value.Length0 == |grid| && res.value.Length1 == |grid[0]|
      && Total(ToSeq(res.value)) == 1.0
      && ToSeq(res.value) == SenseSpec(color, grid, ToSeq(beliefs), pHit, pMiss)
  {
    var copy := CopyGrid(beliefs);
    var newBeliefs := Localizer.Sense(color, grid, copy, pHit, pMiss);
    if newBeliefs.Err? {
      return Err(newBeliefs.error);
    }
    res := Ok(if newBeliefs.value.Length0 == 0 then copy else newBeliefs.value);
  }

  /** The belief update of `Simulation.move`: the localizer's move of a copy
      of the beliefs, which cannot raise on a grid of total mass 1. */
  method MovedBeliefs(beliefs: array2<real>, dy: int, dx: int, blur: real) returns (newBeliefs: array2<real>)
    requires beliefs.Length0 > 0 && beliefs.Length1 > 0 && Total(ToSeq(beliefs)) == 1.0
    ensures fresh(newBeliefs)
    ensures newBeliefs.Length0 == beliefs.Length0 && newBeliefs.Length1 == beliefs.Length1
    ensures Total(ToSeq(newBeliefs)) == 1.0
    ensures ToSeq(newBeliefs) == MoveSpec(ToSeq(beliefs), beliefs.Length1, dy, dx, blur)
  {
    var copy := CopyGrid(beliefs);
    var moved := Localizer.Move(dy, dx, copy, blur);
    newBeliefs := moved.value;
  }

  class Simulation {
    const grid: World
    const height: int
    const width: int
    const blur: real
    const pHit: real
    const pMiss: real
    const incorrectSenseProbability: real
    const colors: seq<string>
    const numColors: int
    var beliefs: array2<real>
    var truePose: Pos
    var prevPose: Pos
    /** The sense and move steps completed so far. */
    ghost var log: seq<Step>

    /** The state every public operation keeps: a non-empty world, the
        derived constants, a height x width belief grid of total mass 1, and
        both poses inside the world. */
    ghost predicate Valid()
      reads this, beliefs
    {
      && height == |grid| > 0 && width == |grid[0]| > 0
      && pMiss == 1.0 && pHit + pMiss != 0.0
      && colors == Colors(grid) && numColors == |colors|
      && beliefs.Length0 == height && beliefs.Length1 == width
      && Total(ToSeq(beliefs)) == 1.0
      && 0 <= truePose.0 < height && 0 <= truePose.1 < width
      && 0 <= prevPose.0 < height && 0 <= prevPose.1 < width
    }

    /** `Simulation(grid, blur, p_hit, start_pos)` for the inputs on which the
        source does not raise (see Create); None stands for no start_pos. */
    constructor(grid: World, blur: real, pHit: real, startPos: Option<Pos>)
      requires |grid| > 0 && |grid[0]| > 0 && pHit + 1.0 != 0.0
      requires startPos.Some? ==> 0 <= startPos.value.0 < |grid| && 0 <= startPos.value.1 < |grid[0]|
      ensures Valid() && fresh(beliefs)
      ensures this.grid == grid && this.blur == blur && this.pHit == pHit
      ensures incorrectSenseProbability == pMiss / (pHit + pMiss)
      ensures ToSeq(beliefs) == Uniform(|grid|, |grid[0]|)
      ensures truePose == (if startPos.None? then (|grid| / 2, |grid[0]| / 2) else startPos.value)
      ensures prevPose == truePose
      ensures log == []
    {
      var init := InitializeBeliefs(grid);
      var all := GetColors(grid);
      this.grid := grid;
      beliefs := init.value;
      height := |grid|;
      width := |grid[0]|;
      this.blur := blur;
      this.pHit := pHit;
      pMiss := 1.0;
      incorrectSenseProbability := 1.0 / (pHit + 1.0);
      colors := all;
      numColors := |all|;
      truePose := if startPos.None? then (|grid| / 2, |grid[0]| / 2) else startPos.value;
      prevPose := if startPos.None? then (|grid| / 2, |grid[0]| / 2) else startPos.value;
      log := [];
      new;
      UniformTotal(|grid|, |grid[0]|);
    }

    /** `Simulation(...)` with the exceptions its constructor raises: an
        empty world (IndexError) or an empty first row (ZeroDivisionError) in
        `initialize_beliefs`, then p_hit + p_miss == 0 (ZeroDivisionError). */
    static method Create(grid: World, blur: real, pHit: real, startPos: Option<Pos>) returns (res: Result<Simulation>)
      requires startPos.Some? && |grid| > 0 ==> 0 <= startPos.value.0 < |grid| && 0 <= startPos.value.1 < |grid[0]|
      ensures |grid| == 0 ==> res == Err(IndexError)
      ensures |grid| > 0 && |grid[0]| == 0 ==> res == Err(ZeroDivisionError)
      ensures |grid| > 0 && |grid[0]| > 0 && pHit + 1.0 == 0.0 ==> res == Err(ZeroDivisionError)
      ensures |grid| > 0 && |grid[0]| > 0 && pHit + 1.0 != 0.0 ==>
        && res.Ok? && fresh(res.value) && res.value.Valid()
        && res.value.grid == grid && res.value.blur == blur && res.value.pHit == pHit
        && res.value.truePose == (if startPos.None? then (|grid| / 2, |grid[0]| / 2) else startPos.value)
        && res.value.prevPose == res.value.truePose
    {
      if |grid| == 0 {
        return Err(IndexError);
      }
      if |grid[0]| == 0 {
        return Err(ZeroDivisionError);
      }
      if pHit + 1.0 == 0.0 {
        return Err(ZeroDivisionError);
      }
      var sim := new Simulation(grid, blur, pHit, startPos);
      res := Ok(sim);
    }

    /** `get_colors`: the distinct cell colours in row-major first-occurrence
        order. */
    static method GetColors(grid: World) returns (allColors: seq<string>)
      ensures allColors == Colors(grid)
    {
      allColors := [];
      for i := 0 to |grid|
        invariant allColors == Dedup(Flatten(grid[..i]))
      {
        var row := grid[i];
        assert Flatten(grid[..i]) + row[..0] == Flatten(grid[..i]);
        for j := 0 to |row|
          invariant allColors == Dedup(Flatten(grid[..i]) + row[..j])
        {
          var cell := row[j];
          assert Flatten(grid[..i]) + row[..j + 1] == (Flatten(grid[..i]) + row[..j]) + [cell];
          DedupSnoc(Flatten(grid[..i]) + row[..j], cell);
          if cell !in allColors {
            allColors := allColors + [cell];
          }
        }
        assert row[..|row|] == row;
        FlattenPrefix(grid, i);
      }
      assert grid[..|grid|] == grid;
    }

    /** `get_observed_color` raises IndexError for the draw u: the pose lies
        past the end of its world row, or a misreading is drawn in a world
        with no colour other than the true one (`random.choice` of []). */
    ghost predicate ObservationFails(u: real)
      reads this
      requires 0 <= truePose.0 < |grid| && 0 <= truePose.1
    {
      || truePose.1 >= |grid[truePose.0]|
      || (u < incorrectSenseProbability && OtherColors(colors, grid[truePose.0][truePose.1]) == [])
    }

    /** What an observation at the pose may report given the draw u: the
        true colour at the pose when u is at least the misreading
        probability, and otherwise some other colour of the world. */
    ghost predicate ObservationAt(pose: Pos, u: real, c: string)
    {
      && 0 <= pose.0 < |grid| && 0 <= pose.1 < |grid[pose.0]|
      && var t := grid[pose.0][pose.1];
      && (u >= incorrectSenseProbability ==> c == t)
      && (u < incorrectSenseProbability ==> c in colors && c != t)
    }

    /** What an observation at the true pose may report given the draw u. */
    ghost predicate Observation(u: real, c: string)
      reads this
    {
      ObservationAt(truePose, u, c)
    }

    /** `get_observed_color`, with `random.random()` as the draw u and
        `random.choice` as a nondeterministic choice. A pose past the end of
        its (short) world row raises IndexError, and so does a misreading in
        a world without another colour. */
    method GetObservedColor(u: real) returns (res: Result<string>)
      requires Valid() && 0.0 <= u < 1.0
      ensures res.Err? <==> ObservationFails(u)
      ensures truePose.1 >= |grid[truePose.0]| ==> res == Err(IndexError)
      ensures truePose.1 < |grid[truePose.0]| ==>
        var t := grid[truePose.0][truePose.1];
        && (u >= incorrectSenseProbability ==> res == Ok(t))
        && (u < incorrectSenseProbability ==> (res.Err? <==> OtherColors(colors, t) == []))
        && (res.Ok? ==> Observation(u, res.value))
        && (res.Err? ==> res.error == IndexError)
    {
      var (y, x) := truePose;
      if x >= |grid[y]| {
        return Err(IndexError);
      }
      var trueColor := grid[y][x];
      if u < incorrectSenseProbability {
        var possibleColors: seq<string> := [];
        for k := 0 to |colors|
          invariant possibleColors == OtherColors(colors[..k], trueColor)
        {
          var color := colors[k];
          assert colors[..k + 1][..k] == colors[..k];
          if color != trueColor && color !in possibleColors {
            possibleColors := possibleColors + [color];
          }
        }
        assert colors[..|colors|] == colors;
        if |possibleColors| == 0 {
          return Err(IndexError);
        }
        OtherColorsMembers(colors, trueColor);
        assert possibleColors[0] in possibleColors;
        var color :| color in possibleColors;
        res := Ok(color);
      } else {
        res := Ok(trueColor);
      }
    }

    /** `sense`: observes a colour and replaces the beliefs by the sensor
        update of a copy of them. When the update is empty the copy is kept.
        An exception leaves the state as it was: IndexError when the
        observation fails, otherwise the exception of the localizer's update
        for the observed colour (SenseError). The observation is returned so
        that the contract can name it. */
    method Sense(u: real) returns (observed: Result<string>, error: Option<Exception>)
      requires Valid() && 0.0 <= u < 1.0
      modifies this
      ensures Valid()
      ensures truePose == old(truePose) && prevPose == old(prevPose)
      ensures observed.Err? <==> ObservationFails(u)
      ensures observed.Err? ==> observed.error == IndexError && error == Some(IndexError)
      ensures observed.Ok? ==>
        && truePose.1 < |grid[truePose.0]| && Observation(u, observed.value)
        && error == SenseError(observed.value, grid, old(ToSeq(beliefs)), pHit, pMiss)
      ensures error.Some? ==> beliefs == old(beliefs) && log == old(log)
      ensures error.None? ==>
        && observed.Ok?
        && SenseFits(grid, old(ToSeq(beliefs)))
        && Total(Posterior(observed.value, grid, old(ToSeq(beliefs)), pHit, pMiss)) != 0.0
        && fresh(beliefs)
        && ToSeq(beliefs) == SenseSpec(observed.value, grid, old(ToSeq(beliefs)), pHit, pMiss)
        && log == old(log) + [Sensed(u, observed.value)]
        && Next(old(Current()), Sensed(u, observed.value)) == Some(Current())
    {
      ghost var s0 := Current();
      observed := GetObservedColor(u);
      if observed.Err? {
        return observed, Some(observed.error);
      }
      var newBeliefs := SensedBeliefs(observed.value, grid, beliefs, pHit, pMiss);
      if newBeliefs.Err? {
        return observed, Some(newBeliefs.error);
      }
      ghost var s1 := Snapshot(ToSeq(newBeliefs.value), truePose, prevPose);
      NextSensed(s0, u, observed.value, s1);
      Commit(newBeliefs.value, truePose, prevPose, Sensed(u, observed.value));
      assert Current() == s1;
      error := None;
    }

    /** `move(dy, dx)`: the true pose steps with wrap-around, the previous
        pose records where it was, and the beliefs become the localizer's
        move of a copy of them (which cannot raise on a valid state). */
    method Move(dy: int, dx: int)
      requires Valid()
      modifies this
      ensures Valid() && fresh(beliefs)
      ensures prevPose == old(truePose)
      ensures truePose == ((old(truePose).0 + dy) % height, (old(truePose).1 + dx) % width)
      ensures ToSeq(beliefs) == MoveSpec(old(ToSeq(beliefs)), width, dy, dx, blur)
      ensures log == old(log) + [Moved(dy, dx)]
      ensures Next(old(Current()), Moved(dy, dx)) == Some(Current())
    {
      ghost var s0 := Current();
      var newY := (truePose.0 + dy) % height;
      var newX := (truePose.1 + dx) % width;
      assert (newY, newX) == ((s0.truePose.0 + dy) % height, (s0.truePose.1 + dx) % width);
      var newBeliefs := MovedBeliefs(beliefs, dy, dx, blur);
      ghost var s1 := Snapshot(ToSeq(newBeliefs), (newY, newX), truePose);
      NextMoved(s0, dy, dx, s1);
      Commit(newBeliefs, (newY, newX), truePose, Moved(dy, dx));
      assert Current() == s1;
    }

    /** The field assignments that end `sense` and `move`: installs new
        beliefs and poses that keep the state valid and records the step. */
    method Commit(newBeliefs: array2<real>, newTrue: Pos, newPrev: Pos, step: Step)
      requires Valid()
      requires newBeliefs.Length0 == height && newBeliefs.Length1 == width && Total(ToSeq(newBeliefs)) == 1.0
      requires 0 <= newTrue.0 < height && 0 <= newTrue.1 < width
      requires 0 <= newPrev.0 < height && 0 <= newPrev.1 < width
      modifies this
      ensures Valid()
      ensures beliefs == newBeliefs && truePose == newTrue && prevPose == newPrev
      ensures ToSeq(beliefs) == old(ToSeq(newBeliefs))
      ensures log == old(log) + [step]
    {
      beliefs := newBeliefs;
      truePose := newTrue;
      prevPose := newPrev;
      log := log + [step];
    }

    /** `random_move`: a step of -1, 0 or 1 in each direction, chosen
        nondeterministically. */
    static method RandomMove() returns (dy: int, dx: int)
      ensures -1 <= dy <= 1 && -1 <= dx <= 1
    {
      dy :| -1 <= dy <= 1;
      dx :| -1 <= dx <= 1;
    }

    /** The current values of the fields that sense and move change. */
    ghost function Current(): Snapshot
      reads this, beliefs
    {
      Snapshot(ToSeq(beliefs), truePose, prevPose)
    }

    /** The state that a completed step leads to from s, as `sense` and
        `move` compute it, or None when the step cannot complete from s. */
    ghost function Next(s: Snapshot, step: Step): Option<Snapshot>
    {
      match step
      case Sensed(u, c) =>
        if ObservationAt(s.truePose, u, c)
           && SenseFits(grid, s.beliefs) && Total(Posterior(c, grid, s.beliefs, pHit, pMiss)) != 0.0 then
          Some(Snapshot(SenseSpec(c, grid, s.beliefs, pHit, pMiss), s.truePose, s.prevPose))
        else None
      case Moved(dy, dx) =>
        if height > 0 && width > 0 && |s.beliefs| > 0 && Shape(s.beliefs, |s.beliefs|, width)
           && Total(s.beliefs) != 0.0 then
          Some(Snapshot(MoveSpec(s.beliefs, width, dy, dx, blur),
                        ((s.truePose.0 + dy) % height, (s.truePose.1 + dx) % width), s.truePose))
        else None
    }

    /** The state reached from s by the steps, one Next at a time. */
    ghost function Replay(s: Snapshot, steps: seq<Step>): Option<Snapshot>
      decreases |steps|
    {
      if |steps| == 0 then Some(s)
      else
        match Replay(s, steps[..|steps| - 1])
        case None => None
        case Some(t) => Next(t, steps[|steps| - 1])
    }

    /** Replaying a + b is replaying a and then b. */
    lemma {:induction false} ReplayAppend(s: Snapshot, a: seq<Step>, b: seq<Step>)
      ensures Replay(s, a + b) == match Replay(s, a) case None => None case Some(t) => Replay(t, b)
      decreases |b|
    {
      if |b| == 0 {
        assert a + b == a;
      } else {
        assert (a + b)[..|a + b| - 1] == a + b[..|b| - 1];
        ReplayAppend(s, a, b[..|b| - 1]);
      }
    }

    /** A replay that completes starts with a step that completes. */
    lemma {:induction false} ReplayFirst(s: Snapshot, steps: seq<Step>)
      requires |steps| > 0 && Replay(s, steps).Some?
      ensures Next(s, steps[0]).Some?
      decreases |steps|
    {
      if |steps| > 1 {
        var init := steps[..|steps| - 1];
        ReplayFirst(s, init);
      } else {
        assert steps[..0] == [];
      }
    }

    /** The first round of a completed replay observed, for its draw, a
        colour that the observation at the starting pose may report. */
    lemma FirstRoundObserves(s: Snapshot, steps: seq<Step>, draws: seq<real>)
      requires |draws| > 0 && DrawsUsed(steps, draws) && Replay(s, steps).Some?
      ensures steps[0].Sensed? && ObservationAt(s.truePose, draws[0], steps[0].color)
    {
      assert steps[2 * 0] == steps[0];
      ReplayFirst(s, steps);
    }

    lemma ReplayRound(s0: Snapshot, a: Step, s1: Snapshot, b: Step, s2: Snapshot)
      requires Next(s0, a) == Some(s1) && Next(s1, b) == Some(s2)
      ensures Replay(s0, [a, b]) == Some(s2)
    {
      assert [a][..0] == [];
      assert Replay(s0, [a]) == Some(s1);
      assert [a, b][..1] == [a];
    }

    lemma NextSensed(s: Snapshot, u: real, c: string, t: Snapshot)
      requires ObservationAt(s.truePose, u, c)
      requires SenseFits(grid, s.beliefs) && Total(Posterior(c, grid, s.beliefs, pHit, pMiss)) != 0.0
      requires t == Snapshot(SenseSpec(c, grid, s.beliefs, pHit, pMiss), s.truePose, s.prevPose)
      ensures Next(s, Sensed(u, c)) == Some(t)
    {
    }

    lemma NextMoved(s: Snapshot, dy: int, dx: int, t: Snapshot)
      requires height > 0
      requires width > 0
      requires |s.beliefs| > 0
      requires Shape(s.beliefs, |s.beliefs|, width)
      requires Total(s.beliefs) != 0.0
      requires t == Snapshot(MoveSpec(s.beliefs, width, dy, dx, blur),
                             ((s.truePose.0 + dy) % height, (s.truePose.1 + dx) % width), s.truePose)
      ensures Next(s, Moved(dy, dx)) == Some(t)
    {
    }

    /** A sense step cannot complete on a misreading when the world has no
        colour other than the true one at the pose: `random.choice` of the
        empty list raises, so no logged round can start with such a draw. */
    lemma MisreadingWithoutChoice(s: Snapshot, u: real, c: string)
      requires 0 <= s.truePose.0 < |grid| && 0 <= s.truePose.1 < |grid[s.truePose.0]|
      requires colors == Colors(grid) && u < incorrectSenseProbability
      requires forall i, j :: 0 <= i < |grid| && 0 <= j < |grid[i]| ==> grid[i][j] == grid[s.truePose.0][s.truePose.1]
      ensures Next(s, Sensed(u, c)) == None
    {
      var t := grid[s.truePose.0][s.truePose.1];
      SingleColourNoChoice(grid, t);
      OtherColorsMembers(colors, t);
    }

    /** The sense step may raise e for the draw u in the current state: the
        observation fails (IndexError), or some colour the observation may
        report makes the localizer's update raise e. */
    ghost predicate SenseCanFail(u: real, e: Exception)
      reads this, beliefs
      requires Valid()
    {
      || (ObservationFails(u) && e == IndexError)
      || (!ObservationFails(u) &&
          exists c :: Observation(u, c) && SenseError(c, grid, ToSeq(beliefs), pHit, pMiss) == Some(e))
    }

    /** One iteration of the loop of `run`: sense, then a random move. An
        exception in the sense step ends the round before anything changed;
        otherwise the state is the replay of the two steps logged. */
    method Round(u: real) returns (observed: Result<string>, error: Option<Exception>)
      requires Valid() && 0.0 <= u < 1.0
      modifies this
      ensures Valid()
      ensures observed.Err? <==> old(ObservationFails(u))
      ensures observed.Err? ==> error == Some(IndexError)
      ensures observed.Ok? ==>
        && old(truePose.1 < |grid[truePose.0]| && Observation(u, observed.value))
        && error == SenseError(observed.value, grid, old(ToSeq(beliefs)), pHit, pMiss)
      ensures error.Some? ==>
        beliefs == old(beliefs) && truePose == old(truePose) && prevPose == old(prevPose) && log == old(log)
      ensures error.None? ==>
        && |log| == |old(log)| + 2 && log[..|old(log)|] == old(log) && Rounds(log[|old(log)|..], 1)
        && log[|old(log)|] == Sensed(u, observed.value)
        && Replay(old(Current()), log[|old(log)|..]) == Some(Current())
    {
      ghost var s0 := Current();
      observed, error := Sense(u);
      if error.Some? {
        return;
      }
      ghost var s1 := Current();
      var dy, dx := RandomMove();
      Move(dy, dx);
      ghost var s2 := Current();
      RoundsOne(log, old(log), u, observed.value, dy, dx);
      ReplayRound(s0, Sensed(u, observed.value), s1, Moved(dy, dx), s2);
    }

    /** Replaying the steps logged after start composes over one more
        round appended to the log. */
    lemma ReplayExtend(start: seq<Step>, before: seq<Step>, log: seq<Step>, s0: Snapshot, mid: Snapshot, cur: Snapshot)
      requires |start| <= |before| <= |log| && log[..|before|] == before
      requires Replay(s0, before[|start|..]) == Some(mid)
      requires Replay(mid, log[|before|..]) == Some(cur)
      ensures Replay(s0, log[|start|..]) == Some(cur)
    {
      assert log[|start|..] == before[|start|..] + log[|before|..];
      ReplayAppend(s0, before[|start|..], log[|before|..]);
    }

    /** `run(num_steps)`: num_steps rounds of sense then move, the k-th sense
        taking draws[k] as its `random.random()`. An exception in a sense
        step ends the run after the rounds completed before it, with a
        failure that sense step can raise in the state those rounds left. */
    method Run(numSteps: nat, draws: seq<real>) returns (completed: nat, error: Option<Exception>)
      requires Valid()
      requires |draws| == numSteps && forall k :: 0 <= k < |draws| ==> 0.0 <= draws[k] < 1.0
      modifies this
      ensures Valid()
      ensures error.None? ==> completed == numSteps
      ensures error.Some? ==> completed < numSteps && SenseCanFail(draws[completed], error.value)
      ensures |log| >= |old(log)| && log[..|old(log)|] == old(log)
      ensures Rounds(log[|old(log)|..], completed)
      ensures DrawsUsed(log[|old(log)|..], draws[..completed])
      ensures Replay(old(Current()), log[|old(log)|..]) == Some(Current())
    {
      ghost var start := log;
      ghost var s0 := Current();
      assert log[|start|..] == [];
      for i := 0 to numSteps
        invariant Valid()
        invariant |log| == |start| + 2 * i && log[..|start|] == start
        invariant Rounds(log[|start|..], i)
        invariant DrawsUsed(log[|start|..], draws[..i])
        invariant Replay(s0, log[|start|..]) == Some(Current())
      {
        ghost var before := log;
        ghost var mid := Current();
        var observed, failed := Round(draws[i]);
        if failed.Some? {
          if observed.Ok? {
            assert Observation(draws[i], observed.value);
          }
          return i, failed;
        }
        RunExtend(start, before, log, draws, i, observed.value);
        ReplayExtend(start, before, log, s0, mid, Current());
      }
      completed, error := numSteps, None;
    }
  }
}
