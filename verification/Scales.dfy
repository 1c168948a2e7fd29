/**
 * Musical scales: each scale is a list of semitone steps within an octave;
 * its notes are every octave's steps that fall in the playable range
 * [MIN_NOTE, MAX_NOTE] of MIDI note numbers, in ascending order.
 */
module Scales {

  /** The lowest and highest MIDI note the player uses. */
  const MIN_NOTE: int := 40
  const MAX_NOTE: int := 90

  /** The number of octaves generateScale covers: (MAX_NOTE + 1) / 12 + 1. */
  const NUM_OCTAVES: nat := (MAX_NOTE + 1) / 12 + 1

  /** The seven scales the player offers. */
  datatype ScaleName =
    | MajorPentatonic
    | MinorPentatonic
    | Blues
    | WholeTone
    | HarmonicMinor
    | MelodicMinor
    | HarmonicMajor
  {
    /** The semitone steps each enum constant is built from. */
    function Steps(): seq<int>
    {
      match this
      case MajorPentatonic => [0, 2, 4, 7, 9]
      case MinorPentatonic => [0, 3, 5, 7, 10]
      case Blues => [0, 3, 5, 6, 7, 10]
      case WholeTone => [0, 2, 4, 6, 8, 10]
      case HarmonicMinor => [0, 2, 3, 5, 7, 8, 11]
      case MelodicMinor => [0, 2, 3, 5, 7, 9, 11]
      case HarmonicMajor => [0, 2, 4, 5, 7, 8, 11]
    }
  }

  /** Every scale starts at its root and climbs within one octave. */
  lemma StepsValid(name: ScaleName)
    ensures ValidSteps(name.Steps()) && name.Steps()[0] == 0
  {
    var steps := name.Steps();
    assert AdjacentlyAscending(steps) by {
      match name
      case MajorPentatonic =>
      case MinorPentatonic =>
      case Blues =>
      case WholeTone =>
      case HarmonicMinor =>
      case MelodicMinor =>
      case HarmonicMajor =>
    }
    AdjacentAscending(steps);
  }

  /**
   * A scale: the notes its constructor keeps, fixed once built. Each enum
   * constant is one such object, built from its steps.
   */
  class Scale {
    const notes: seq<int>

    /** Kept notes are playable, strictly ascending, and there is at least one. */
    ghost predicate Valid()
    {
      && |notes| > 0
      && (forall i | 0 <= i < |notes| :: MIN_NOTE <= notes[i] <= MAX_NOTE)
      && StrictlyAscending(notes)
    }

    /**
     * The enum constructor: generate the notes of every octave for the
     * steps, then keep those in [MIN_NOTE, MAX_NOTE]. With steps strictly
     * ascending in [0, 12), the kept notes are exactly the playable notes
     * whose remainder mod 12 is a step, in ascending order.
     */
    constructor (steps: seq<int>)
      ensures notes == InRange(Generated(steps))
      ensures forall i | 0 <= i < |notes| :: MIN_NOTE <= notes[i] <= MAX_NOTE
      ensures ValidSteps(steps) ==>
        && StrictlyAscending(notes)
        && forall n :: n in notes <==> MIN_NOTE <= n <= MAX_NOTE && n % 12 in steps
      ensures ValidSteps(steps) && 0 in steps ==> Valid()
    {
      var generated := GenerateScale(steps);
      InRangeDropsZeros(Generated(steps), |generated| - |Generated(steps)|);
      notes := InRange(generated);
      if ValidSteps(steps) {
        KeptNotesAscending(steps);
        KeptNoteMembership(steps);
        if 0 in steps {
          assert 48 in InRange(Generated(steps));
        }
      }
    }

    /** length(): the number of kept notes. */
    function Length(): (n: nat)
      ensures Valid() ==> n > 0
    {
      |notes|
    }

    /** get(i): the i-th kept note; above every note before it. */
    function Get(i: int): (note: int)
      requires 0 <= i < Length()
      ensures note in notes
      ensures Valid() ==> MIN_NOTE <= note <= MAX_NOTE
      ensures Valid() ==> forall j | 0 <= j < i :: notes[j] < note
    {
      notes[i]
    }

    /** getCenter(): the kept note at position length() / 2. */
    function Center(): (note: int)
      requires Length() > 0
      ensures note in notes
      ensures Valid() ==> MIN_NOTE <= note <= MAX_NOTE
      ensures Valid() ==> forall j | 0 <= j < Length() / 2 :: notes[j] < note
      ensures Valid() ==> forall j | Length() / 2 < j < Length() :: note < notes[j]
    {
      Get(Length() / 2)
    }
  }

  /** values(): the scale object of each enum constant. */
  method Of(name: ScaleName) returns (scale: Scale)
    ensures scale.Valid()
    ensures forall n :: n in scale.notes <==> MIN_NOTE <= n <= MAX_NOTE && n % 12 in name.Steps()
  {
    StepsValid(name);
    scale := new Scale(name.Steps());
  }

  /** Steps strictly ascending within one octave, as every scale's are. */
  predicate ValidSteps(steps: seq<int>)
  {
    && WithinOctave(steps)
    && (forall i, j | 0 <= i < j < |steps| :: steps[i] < steps[j])
  }

  /** Each step is above the one before it. */
  predicate AdjacentlyAscending(steps: seq<int>)
  {
    forall i | 0 < i < |steps| :: steps[i - 1] < steps[i]
  }

  /** Ascending from one step to the next makes any later step higher than any earlier one. */
  lemma {:induction false} AdjacentAscending(steps: seq<int>)
    requires AdjacentlyAscending(steps)
    ensures forall i, j | 0 <= i < j < |steps| :: steps[i] < steps[j]
    decreases |steps|
  {
    if |steps| > 1 {
      var init := steps[..|steps| - 1];
      assert AdjacentlyAscending(init);
      AdjacentAscending(init);
      forall i, j | 0 <= i < j < |steps| ensures steps[i] < steps[j] {
        if j < |steps| - 1 {
          assert steps[i] == init[i] && steps[j] == init[j];
        } else if i < j - 1 {
          assert init[i] < init[j - 1];
        }
      }
    }
  }

  /** Every step is a semitone offset inside one octave. */
  predicate WithinOctave(steps: seq<int>)
  {
    forall i | 0 <= i < |steps| :: 0 <= steps[i] < 12
  }

  /** The notes of one octave over the first j steps: octave * 12 + step, when not above MAX_NOTE. */
  function Row(steps: seq<int>, octave: int, j: nat): seq<int>
    requires j <= |steps|
  {
    if j == 0 then []
    else
      var note := octave * 12 + steps[j - 1];
      Row(steps, octave, j - 1) + (if note <= MAX_NOTE then [note] else [])
  }

  /** The notes of the first k octaves, one octave after another. */
  function Octaves(steps: seq<int>, k: nat): seq<int>
  {
    if k == 0 then [] else Octaves(steps, k - 1) + Row(steps, k - 1, |steps|)
  }

  /** The notes generateScale writes, in writing order. */
  function Generated(steps: seq<int>): seq<int>
  {
    Octaves(steps, NUM_OCTAVES)
  }

  /** The constructor's filter: the notes in [MIN_NOTE, MAX_NOTE], in order. */
  function InRange(xs: seq<int>): (r: seq<int>)
    ensures forall i | 0 <= i < |r| :: MIN_NOTE <= r[i] <= MAX_NOTE
    ensures forall n :: n in r <==> n in xs && MIN_NOTE <= n <= MAX_NOTE
    ensures |r| <= |xs|
  {
    if xs == [] then []
    else
      var rest := InRange(xs[..|xs| - 1]);
      var x := xs[|xs| - 1];
      assert xs == xs[..|xs| - 1] + [x];
      if MIN_NOTE <= x <= MAX_NOTE then rest + [x] else rest
  }

  function Zeros(n: nat): (z: seq<int>)
    ensures |z| == n && forall i | 0 <= i < n :: z[i] == 0
  {
    seq(n, _ => 0)
  }

  /** The slots of k octaves of n steps each, counted octave by octave. */
  function Slots(n: nat, k: nat): nat
  {
    if k == 0 then 0 else Slots(n, k - 1) + n
  }

  /** Counting octave by octave gives n * k slots. */
  lemma {:induction false} SlotsProduct(n: nat, k: nat)
    ensures Slots(n, k) == n * k
    decreases k
  {
    if k > 0 {
      SlotsProduct(n, k - 1);
      assert n * k == n * (k - 1) + n;
    }
  }

  /** Another octave fits when k octaves are fewer than all of them. */
  lemma {:induction false} SlotsRoom(n: nat, k: nat, all: nat)
    requires k < all
    ensures Slots(n, k) + n <= Slots(n, all)
    decreases all
  {
    if k + 1 < all {
      SlotsRoom(n, k, all - 1);
    }
  }

  /**
   * generateScale: fill an array of |steps| * NUM_OCTAVES slots with the
   * notes octave * 12 + step that are not above MAX_NOTE, octave by octave;
   * the write index never leaves the array, and the slots after the last
   * written one keep the value 0.
   */
  method GenerateScale(steps: seq<int>) returns (notes: seq<int>)
    ensures |notes| == |steps| * NUM_OCTAVES
    ensures |Generated(steps)| <= |notes|
    ensures notes == Generated(steps) + Zeros(|notes| - |Generated(steps)|)
  {
    var range := MAX_NOTE + 1;
    var numOctaves := range / 12 + 1;
    var a := new int[|steps| * numOctaves](_ => 0);
    SlotsProduct(|steps|, numOctaves);
    var index := 0;
    for octave := 0 to numOctaves
      invariant index == |Octaves(steps, octave)| <= Slots(|steps|, octave) <= a.Length
      invariant a[..index] == Octaves(steps, octave)
      invariant forall k | index <= k < a.Length :: a[k] == 0
    {
      SlotsRoom(|steps|, octave, numOctaves);
      index := FillOctave(a, steps, octave, index);
      assert Octaves(steps, octave + 1) == Octaves(steps, octave) + Row(steps, octave, |steps|);
    }
    notes := a[..];
    assert notes == a[..index] + a[index..];
    assert a[index..] == Zeros(a.Length - index);
  }

  /**
   * One pass of generateScale's inner loop: write the notes of `octave`
   * that are not above MAX_NOTE from slot `start` on.
   */
  method FillOctave(a: array<int>, steps: seq<int>, octave: int, start: nat) returns (index: nat)
    requires start + |steps| <= a.Length
    requires forall k | start <= k < a.Length :: a[k] == 0
    modifies a
    ensures index == start + |Row(steps, octave, |steps|)| <= start + |steps|
    ensures a[..index] == old(a[..start]) + Row(steps, octave, |steps|)
    ensures forall k | index <= k < a.Length :: a[k] == 0
  {
    ghost var done := a[..start];
    var baseNote := octave * 12;
    index := start;
    for j := 0 to |steps|
      invariant index == start + |Row(steps, octave, j)| <= start + j
      invariant a[..index] == done + Row(steps, octave, j)
      invariant forall k | index <= k < a.Length :: a[k] == 0
    {
      var note := baseNote + steps[j];
      if note <= MAX_NOTE {
        a[index] := note;
        index := index + 1;
      }
    }
  }

  /** The zero-filled tail of generateScale's array never survives the range filter. */
  lemma {:induction false} InRangeDropsZeros(xs: seq<int>, n: nat)
    ensures InRange(xs + Zeros(n)) == InRange(xs)
    decreases n
  {
    if n > 0 {
      var ys := xs + Zeros(n);
      assert ys[|ys| - 1] == 0;
      assert ys[..|ys| - 1] == xs + Zeros(n - 1);
      assert InRange(ys) == InRange(xs + Zeros(n - 1));
      InRangeDropsZeros(xs, n - 1);
    } else {
      assert xs + Zeros(n) == xs;
    }
  }

  predicate StrictlyAscending(xs: seq<int>)
  {
    forall i, j | 0 <= i < j < |xs| :: xs[i] < xs[j]
  }

  lemma {:induction false} RowAscending(steps: seq<int>, octave: int, j: nat)
    requires ValidSteps(steps) && j <= |steps|
    ensures StrictlyAscending(Row(steps, octave, j))
    ensures forall i | 0 <= i < |Row(steps, octave, j)| ::
      octave * 12 <= Row(steps, octave, j)[i] < octave * 12 + 12
    ensures forall i | 0 <= i < |Row(steps, octave, j)| :: j > 0 && Row(steps, octave, j)[i] <= octave * 12 + steps[j - 1]
    decreases j
  {
    if j > 0 {
      RowAscending(steps, octave, j - 1);
      var r := Row(steps, octave, j - 1);
      forall i | 0 <= i < |r| ensures r[i] < octave * 12 + steps[j - 1] {
        if j > 1 {
          assert r[i] <= octave * 12 + steps[j - 2];
        }
      }
    }
  }

  lemma {:induction false} OctavesAscending(steps: seq<int>, k: nat)
    requires ValidSteps(steps)
    ensures StrictlyAscending(Octaves(steps, k))
    ensures forall i | 0 <= i < |Octaves(steps, k)| :: 0 <= Octaves(steps, k)[i] < 12 * k
    decreases k
  {
    if k > 0 {
      OctavesAscending(steps, k - 1);
      RowAscending(steps, k - 1, |steps|);
    }
  }

  lemma {:induction false} InRangeAscending(xs: seq<int>)
    requires StrictlyAscending(xs)
    ensures StrictlyAscending(InRange(xs))
    decreases |xs|
  {
    if xs != [] {
      var init := xs[..|xs| - 1];
      var x := xs[|xs| - 1];
      InRangeAscending(init);
      var rest := InRange(init);
      if MIN_NOTE <= x <= MAX_NOTE {
        assert xs == init + [x];
        var r := rest + [x];
        assert InRange(xs) == r;
        forall i, j | 0 <= i < j < |r| ensures r[i] < r[j] {
          if j == |r| - 1 {
            assert rest[i] in init;
            var k :| 0 <= k < |init| && init[k] == rest[i];
            assert xs[k] < xs[|xs| - 1];
          }
        }
      }
    }
  }

  /** With valid steps, the kept notes are strictly ascending (hence distinct). */
  lemma KeptNotesAscending(steps: seq<int>)
    requires ValidSteps(steps)
    ensures StrictlyAscending(InRange(Generated(steps)))
  {
    OctavesAscending(steps, NUM_OCTAVES);
    InRangeAscending(Generated(steps));
  }

  lemma {:induction false} RowMembership(steps: seq<int>, octave: int, j: nat, n: int)
    requires WithinOctave(steps) && j <= |steps|
    ensures n in Row(steps, octave, j) <==>
      n <= MAX_NOTE && exists i | 0 <= i < j :: n == octave * 12 + steps[i]
    decreases j
  {
    if j > 0 {
      RowMembership(steps, octave, j - 1, n);
    }
  }

  /** n lies in octave o exactly when n / 12 == o, and then its step is n % 12. */
  lemma OctaveOf(n: int, o: int)
    ensures n / 12 == o <==> o * 12 <= n < o * 12 + 12
    ensures n / 12 == o ==> n == o * 12 + n % 12
  {
    var q, r := n / 12, n % 12;
    assert n == q * 12 + r && 0 <= r < 12;
    if o * 12 <= n < o * 12 + 12 {
      assert (q - o) * 12 == o * 12 - o * 12 + (n - r) - o * 12;
    }
  }

  /** The notes of a whole octave: those in it, not above MAX_NOTE, whose remainder is a step. */
  lemma OctaveRowMembership(steps: seq<int>, o: int, n: int)
    requires WithinOctave(steps)
    ensures n in Row(steps, o, |steps|) <==> n / 12 == o && n <= MAX_NOTE && n % 12 in steps
  {
    RowMembership(steps, o, |steps|, n);
    OctaveOf(n, o);
    if n in Row(steps, o, |steps|) {
      var i :| 0 <= i < |steps| && n == o * 12 + steps[i];
      assert n % 12 == steps[i];
    }
    if n / 12 == o && n <= MAX_NOTE && n % 12 in steps {
      var i :| 0 <= i < |steps| && steps[i] == n % 12;
      assert n == o * 12 + steps[i];
    }
  }

  lemma {:induction false} OctavesMembership(steps: seq<int>, k: nat, n: int)
    requires WithinOctave(steps)
    ensures n in Octaves(steps, k) <==> 0 <= n < 12 * k && n <= MAX_NOTE && n % 12 in steps
    decreases k
  {
    if k > 0 {
      var before, row := Octaves(steps, k - 1), Row(steps, k - 1, |steps|);
      var playable := n <= MAX_NOTE && n % 12 in steps;
      OctavesMembership(steps, k - 1, n);
      OctaveRowMembership(steps, k - 1, n);
      OctaveOf(n, k - 1);
      assert Octaves(steps, k) == before + row;
      assert (n in before) == (0 <= n < 12 * (k - 1) && playable);
      assert (n in row) == (n / 12 == k - 1 && playable);
      assert (0 <= n < 12 * k) == (0 <= n < 12 * (k - 1) || n / 12 == k - 1);
    }
  }

  /**
   * With valid steps, note n is kept exactly when it lies in [MIN_NOTE,
   * MAX_NOTE] and n mod 12 is one of the steps.
   */
  lemma KeptNoteMembership(steps: seq<int>)
    requires ValidSteps(steps)
    ensures forall n :: n in InRange(Generated(steps)) <==> MIN_NOTE <= n <= MAX_NOTE && n % 12 in steps
  {
    forall n ensures n in Octaves(steps, NUM_OCTAVES) <==> 0 <= n < 12 * NUM_OCTAVES && n <= MAX_NOTE && n % 12 in steps {
      OctavesMembership(steps, NUM_OCTAVES, n);
    }
  }

  /** A strictly ascending sequence has as many distinct elements as entries. */
  lemma {:induction false} AscendingCount(xs: seq<int>)
    requires StrictlyAscending(xs)
    ensures |set n | n in xs| == |xs|
    decreases |xs|
  {
    if xs != [] {
      var init := xs[..|xs| - 1];
      AscendingCount(init);
      assert (set n | n in xs) == (set n | n in init) + {xs[|xs| - 1]};
      assert xs[|xs| - 1] !in init;
    }
  }
}
