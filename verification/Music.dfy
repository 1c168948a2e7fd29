/**
 * The note allocator behind the music player: every tracked process owns
 * one note of the scale, no two processes share a note, and the notes
 * nobody owns form the free pool. Processes that appear take the free
 * notes nearest to the scale's centre. Next to it, the integer formulas
 * that turn run time and dispatch counts into MIDI loudness (0..127).
 */
module Music {
  import opened Machine
  import opened Scales
  import opened Collections

  /** No two keys share a value. */
  predicate Injective(m: map<int, int>)
  {
    forall p, q | p in m && q in m && p != q :: m[p] != m[q]
  }

  /** The scale's notes as a set; it has one element per kept note. */
  function NoteSet(scale: Scale): (notes: set<int>)
    requires scale.Valid()
    ensures |notes| == scale.Length()
    ensures forall n :: n in notes <==> n in scale.notes
  {
    AscendingCount(scale.notes);
    Members(scale.notes)
  }

  /** How far a note lies from the centre, the sort key of the free notes. */
  function Distance(note: int, center: int): nat
  {
    Abs(note - center)
  }

  /** The live processes that have no note yet, in their given order. */
  function Unassigned(live: seq<int>, owners: set<int>): (r: seq<int>)
    ensures forall p :: p in r <==> p in live && p !in owners
    ensures Distinct(live) ==> Distinct(r)
  {
    if live == [] then []
    else (if live[0] in owners then [] else [live[0]]) + Unassigned(live[1..], owners)
  }

  class MusicToNote {
    const scale: Scale
    var noteMap: map<int, int>
    var availableNotes: set<int>

    /** The map is injective, and its notes and the free pool split the scale's notes. */
    ghost predicate Valid()
      reads this
    {
      scale.Valid() && Split(noteMap, availableNotes, NoteSet(scale))
    }

    /** A new allocator: no process owns a note and every note of the scale is free. */
    constructor (scale: Scale)
      requires scale.Valid()
      ensures this.scale == scale
      ensures noteMap == map[] && availableNotes == NoteSet(scale)
      ensures Valid()
    {
      this.scale := scale;
      var empty: map<int, int> := map[];
      assert empty.Values == {};
      noteMap := empty;
      var notes: set<int> := {};
      ghost var kept := scale.notes;
      for i := 0 to scale.Length()
        invariant notes == Members(kept[..i])
      {
        var note := scale.Get(i);
        assert note == kept[i];
        assert kept[..i + 1] == kept[..i] + [kept[i]];
        notes := notes + {note};
      }
      assert kept[..|kept|] == kept;
      assert notes == NoteSet(scale);
      availableNotes := notes;
    }

    /**
     * update: processes no longer live give their notes back to the pool;
     * then each live process without a note takes the free note nearest to
     * the centre. The live processes are distinct and no more numerous than
     * the scale's notes (otherwise the source indexes past the free list).
     * The result is the set of removed processes.
     */
    method Update(live: seq<int>) returns (changed: set<int>)
      requires Valid()
      requires Distinct(live)
      requires |live| <= scale.Length()
      modifies this
      ensures Valid()
      ensures noteMap.Keys == Members(live)
      ensures forall p | p in old(noteMap) && p in live :: noteMap[p] == old(noteMap)[p]
      ensures changed == old(noteMap).Keys - Members(live)
      ensures forall p, n | p in noteMap && p !in old(noteMap) && n in availableNotes ::
        Distance(noteMap[p], scale.Center()) <= Distance(n, scale.Center())
    {
      var m, free;
      m, free, changed := Reassign(noteMap, availableNotes, live, scale.Center(), NoteSet(scale));
      noteMap, availableNotes := m, free;
    }

    /** get: the note of a process; the source fails for a process without one. */
    function Get(process: int): (note: int)
      reads this
      requires process in noteMap
      ensures Valid() ==> note in NoteSet(scale) && note !in availableNotes
      ensures Valid() ==> forall q | q in noteMap && q != process :: noteMap[q] != note
    {
      noteMap[process]
    }
  }

  /**
   * update on values: the removal loop, then the assignment loop for the
   * live processes still without a note.
   */
  method Reassign(m0: map<int, int>, free0: set<int>, live: seq<int>, center: int, ghost all: set<int>)
    returns (m: map<int, int>, free: set<int>, changed: set<int>)
    requires Split(m0, free0, all)
    requires Distinct(live)
    requires |live| <= |all|
    ensures Split(m, free, all)
    ensures m.Keys == Members(live)
    ensures forall p | p in m0 && p in live :: m[p] == m0[p]
    ensures changed == m0.Keys - Members(live)
    ensures forall p, n | p in m && p !in m0 && n in free :: Distance(m[p], center) <= Distance(n, center)
  {
    var m1, free1;
    m1, free1, changed := ReleaseDead(m0, free0, live, all);
    var toAdd := Unassigned(live, m1.Keys);
    FreeNotesSuffice(m1, free1, all, live);
    LiveKeys(m1.Keys, live);
    m, free := TakeNearest(m1, free1, toAdd, center, all);
  }

  /**
   * The removal loop of update: every process of `m0` not in `live` gives
   * its note back to the pool; the result names the removed processes.
   */
  method ReleaseDead(m0: map<int, int>, free0: set<int>, live: seq<int>, ghost all: set<int>)
    returns (m: map<int, int>, free: set<int>, changed: set<int>)
    requires Split(m0, free0, all)
    ensures Split(m, free, all)
    ensures changed == m0.Keys - Members(live)
    ensures m == m0 - changed
    ensures forall p :: p in m <==> p in m0 && p in live
  {
    m, free := m0, free0;
    var toRemove := set p | p in m && p !in live;
    changed := {};
    var remaining := toRemove;
    while remaining != {}
      invariant Releasing(m0, m, free, all, toRemove, remaining, changed)
      decreases |remaining|
    {
      ghost var q := Pick(remaining);
      var p :| p in remaining;
      ReleaseStep(m0, m, free, all, toRemove, remaining, changed, p);
      free := free + {m[p]};
      m := m - {p};
      changed := changed + {p};
      remaining := remaining - {p};
    }
    DeadKeys(m0, live, toRemove, m, changed);
  }

  /**
   * The invariant of the removal loop: the processes already removed are
   * those of `toRemove` no longer `remaining`, the rest still own their
   * notes, and the split holds.
   */
  ghost predicate Releasing(m0: map<int, int>, m: map<int, int>, free: set<int>, all: set<int>,
                            toRemove: set<int>, remaining: set<int>, changed: set<int>)
  {
    && remaining <= toRemove
    && changed == toRemove - remaining
    && m == m0 - changed
    && remaining <= m.Keys
    && Split(m, free, all)
  }

  /** Removing one remaining process keeps the invariant of the removal loop. */
  lemma ReleaseStep(m0: map<int, int>, m: map<int, int>, free: set<int>, all: set<int>,
                    toRemove: set<int>, remaining: set<int>, changed: set<int>, p: int)
    requires Releasing(m0, m, free, all, toRemove, remaining, changed)
    requires p in remaining
    ensures p in m
    ensures Releasing(m0, m - {p}, free + {m[p]}, all, toRemove, remaining - {p}, changed + {p})
  {
    Release(m, free, all, p);
    RemovalBookkeeping(toRemove, remaining, changed, m0, p);
  }

  /** Once every dead process is removed, the owners left are the live ones. */
  lemma DeadKeys(m0: map<int, int>, live: seq<int>, toRemove: set<int>, m: map<int, int>, changed: set<int>)
    requires toRemove == set p | p in m0 && p !in live
    requires changed == toRemove && m == m0 - changed
    ensures changed == m0.Keys - Members(live)
    ensures forall p :: p in m <==> p in m0 && p in live
  {
  }

  /**
   * The assignment loop of update: each process of `toAdd` in turn takes
   * the free note nearest to `center`, so every new owner's note is at
   * least as near as any note left free.
   */
  method TakeNearest(m0: map<int, int>, free0: set<int>, toAdd: seq<int>, center: int, ghost all: set<int>)
    returns (m: map<int, int>, free: set<int>)
    requires Split(m0, free0, all)
    requires Distinct(toAdd)
    requires forall i | 0 <= i < |toAdd| :: toAdd[i] !in m0
    requires |toAdd| <= |free0|
    ensures Split(m, free, all)
    ensures m.Keys == m0.Keys + Members(toAdd)
    ensures forall p | p in m0 :: p in m && m[p] == m0[p]
    ensures forall p, n | p in m && p !in m0 && n in free :: Distance(m[p], center) <= Distance(n, center)
  {
    m, free := m0, free0;
    for i := 0 to |toAdd|
      invariant Assigning(m0, m, free, all, toAdd[..i], center)
      invariant |free| >= |toAdd| - i
    {
      ghost var nearest := Nearest(free, center);
      var note :| note in free && forall n | n in free :: Distance(note, center) <= Distance(n, center);
      var p := toAdd[i];
      SliceSnoc(toAdd, i);
      TakeStep(m0, m, free, all, toAdd[..i], center, p, note);
      m := m[p := note];
      free := free - {note};
    }
    assert toAdd[..|toAdd|] == toAdd;
  }

  /**
   * The invariant of the assignment loop once the processes of `added`
   * are placed: the split holds, the keys are the old ones and `added`,
   * old owners keep their notes and new owners hold notes at least as near
   * as any still free.
   */
  ghost predicate Assigning(m0: map<int, int>, m: map<int, int>, free: set<int>, all: set<int>,
                            added: seq<int>, center: int)
  {
    && Split(m, free, all)
    && m.Keys == m0.Keys + Members(added)
    && (forall p | p in m0 :: m[p] == m0[p])
    && (forall p, n | p in m && p !in m0 && n in free :: Distance(m[p], center) <= Distance(n, center))
  }

  /** Placing a newcomer on a nearest free note keeps the invariant of the assignment loop. */
  lemma TakeStep(m0: map<int, int>, m: map<int, int>, free: set<int>, all: set<int>,
                 added: seq<int>, center: int, p: int, note: int)
    requires Assigning(m0, m, free, all, added, center)
    requires p !in m0 && p !in added
    requires note in free && forall n | n in free :: Distance(note, center) <= Distance(n, center)
    ensures Assigning(m0, m[p := note], free - {note}, all, added + [p], center)
  {
    Take(m, free, all, p, note);
    MembersSnoc(added, p);
  }

  /**
   * After the removals, the free notes suffice for the live processes
   * still without a note: there are no more live processes than notes.
   */
  lemma FreeNotesSuffice(m: map<int, int>, free: set<int>, all: set<int>, live: seq<int>)
    requires Split(m, free, all)
    requires Distinct(live)
    requires |live| <= |all|
    requires m.Keys <= Members(live)
    ensures |Unassigned(live, m.Keys)| <= |free|
  {
    InjectiveCard(m);
    UnassignedCount(live, m.Keys);
    MembersCount(live);
    assert |Members(live) - m.Keys| == |Members(live)| - |m.Keys|;
    assert |free| == |all| - |m.Values|;
  }

  /** The kept owners and the newcomers together are exactly the live processes. */
  lemma LiveKeys(kept: set<int>, live: seq<int>)
    requires kept <= Members(live)
    ensures kept + Members(Unassigned(live, kept)) == Members(live)
  {
  }

  /** The notes owned in `m` and the pool `free` split `all`, and no note has two owners. */
  predicate Split(m: map<int, int>, free: set<int>, all: set<int>)
  {
    Injective(m) && m.Values !! free && m.Values + free == all
  }

  /** A process giving its note back to the pool keeps the split. */
  lemma Release(m: map<int, int>, free: set<int>, all: set<int>, p: int)
    requires Split(m, free, all) && p in m
    ensures Split(m - {p}, free + {m[p]}, all)
    ensures (m - {p}).Keys == m.Keys - {p}
  {
    RemoveValue(m, p);
    var owned := m.Values;
    assert (owned - {m[p]}) !! (free + {m[p]});
    assert (owned - {m[p]}) + (free + {m[p]}) == all;
  }

  /** A process taking a note from the pool keeps the split. */
  lemma Take(m: map<int, int>, free: set<int>, all: set<int>, p: int, note: int)
    requires Split(m, free, all) && p !in m && note in free
    ensures Split(m[p := note], free - {note}, all)
    ensures m[p := note].Keys == m.Keys + {p}
  {
    AddValue(m, p, note);
    var owned := m.Values;
    assert (owned + {note}) !! (free - {note});
    assert (owned + {note}) + (free - {note}) == all;
  }

  /** One step of the removal loop keeps its bookkeeping of removed processes. */
  lemma RemovalBookkeeping(toRemove: set<int>, remaining: set<int>, changed: set<int>,
                           original: map<int, int>, p: int)
    requires remaining <= toRemove && changed == toRemove - remaining && p in remaining
    ensures remaining - {p} <= toRemove
    ensures remaining <= (original - changed).Keys ==> remaining - {p} <= ((original - changed) - {p}).Keys
    ensures changed + {p} == toRemove - (remaining - {p})
    ensures (original - changed) - {p} == original - (changed + {p})
  {
  }

  lemma SliceSnoc(s: seq<int>, i: int)
    requires 0 <= i < |s|
    ensures s[..i + 1] == s[..i] + [s[i]]
  {
  }

  /** A non-empty set has an element. */
  lemma Pick(s: set<int>) returns (k: int)
    requires s != {}
    ensures k in s
  {
    if forall x :: x !in s {
      assert false;
    }
    k :| k in s;
  }

  /** A value of a map has a key mapping to it. */
  lemma Owner(m: map<int, int>, v: int) returns (k: int)
    requires v in m.Values
    ensures k in m && m[k] == v
  {
    if forall x | x in m :: m[x] != v {
      assert false;
    }
    k :| k in m && m[k] == v;
  }

  lemma RemoveValue(m: map<int, int>, p: int)
    requires Injective(m) && p in m
    ensures (m - {p}).Values == m.Values - {m[p]}
    ensures Injective(m - {p})
  {
    var m' := m - {p};
    forall v | v in m.Values - {m[p]} ensures v in m'.Values {
      var k := Owner(m, v);
      assert m'[k] == v;
    }
    forall v | v in m'.Values ensures v in m.Values - {m[p]} {
      var k := Owner(m', v);
      assert m[k] == v;
    }
  }

  lemma AddValue(m: map<int, int>, p: int, n: int)
    requires Injective(m) && p !in m && n !in m.Values
    ensures m[p := n].Values == m.Values + {n}
    ensures Injective(m[p := n])
  {
    var m' := m[p := n];
    forall q | q in m ensures m[q] != n {
      assert m[q] in m.Values;
    }
    forall v | v in m.Values ensures v in m'.Values {
      var k := Owner(m, v);
      assert m'[k] == v;
    }
    forall v | v in m'.Values ensures v in m.Values + {n} {
      var k := Owner(m', v);
      if k != p {
        assert m[k] == v;
      }
    }
    assert p in m' && m'[p] == n;
    assert n in m'.Values;
  }

  /** An injective map has as many distinct values as keys. */
  lemma {:induction false} InjectiveCard(m: map<int, int>)
    requires Injective(m)
    ensures |m.Values| == |m.Keys|
    decreases |m.Keys|
  {
    if m.Keys == {} {
      assert m.Values == {};
    } else {
      var k := Pick(m.Keys);
      RemoveValue(m, k);
      assert (m - {k}).Keys == m.Keys - {k};
      InjectiveCard(m - {k});
    }
  }

  /** Of distinct live processes, those without a note are the members without one. */
  lemma {:induction false} UnassignedCount(live: seq<int>, owners: set<int>)
    requires Distinct(live)
    ensures |Unassigned(live, owners)| == |Members(live) - owners|
    decreases |live|
  {
    if live != [] {
      var x, rest := live[0], live[1..];
      UnassignedCount(rest, owners);
      assert x !in rest;
      if x in owners {
        assert Members(live) - owners == Members(rest) - owners;
      } else {
        assert Members(live) - owners == (Members(rest) - owners) + {x};
      }
    }
  }

  /** A non-empty pool has a note nearest to the centre. */
  lemma {:induction false} Nearest(s: set<int>, center: int) returns (n: int)
    requires s != {}
    ensures n in s && forall m | m in s :: Distance(n, center) <= Distance(m, center)
    decreases |s|
  {
    var x := Pick(s);
    if s - {x} == {} {
      forall m | m in s ensures m == x {
        assert m !in s - {x};
      }
      n := x;
    } else {
      var y := Nearest(s - {x}, center);
      n := if Distance(x, center) <= Distance(y, center) then x else y;
    }
  }

  /** A fresh allocator given distinct live processes assigns each one a distinct note. */
  method AllocateFresh(scale: Scale, live: seq<int>) returns (notes: map<int, int>)
    requires scale.Valid()
    requires Distinct(live)
    requires |live| <= scale.Length()
    ensures notes.Keys == Members(live)
    ensures Injective(notes)
    ensures forall p | p in notes :: notes[p] in scale.notes
  {
    var allocator := new MusicToNote(scale);
    var changed := allocator.Update(live);
    notes := allocator.noteMap;
  }

  // ---- Loudness formulas ----

  /**
   * The loudness a process's run time within the interval is played with:
   * min(127, 127 * runtime / intervalNs), truncating division, narrowed to int.
   */
  function RuntimeLoudness(runtimeInSlice: int, intervalNs: int): (loudness: int)
    requires intervalNs > 0
    ensures runtimeInSlice >= 0 ==> 0 <= loudness <= 127
    ensures runtimeInSlice == 0 ==> loudness == 0
  {
    ToInt32(Min(127, JavaDiv(127 * runtimeInSlice, intervalNs)))
  }

  /** A process running at least the whole interval is played at full loudness 127. */
  lemma LoudnessSaturates(runtimeInSlice: int, intervalNs: int)
    requires 0 < intervalNs <= runtimeInSlice
    ensures RuntimeLoudness(runtimeInSlice, intervalNs) == 127
  {
    MulLe(intervalNs, runtimeInSlice, 127);
    DivMonotone(127 * intervalNs, 127 * runtimeInSlice, intervalNs);
    MulDiv(127, intervalNs);
  }

  /** More run time is never played more quietly. */
  lemma LoudnessMonotone(r1: int, r2: int, intervalNs: int)
    requires 0 <= r1 <= r2 && intervalNs > 0
    ensures RuntimeLoudness(r1, intervalNs) <= RuntimeLoudness(r2, intervalNs)
  {
    MulLe(r1, r2, 127);
    DivMonotone(127 * r1, 127 * r2, intervalNs);
  }

  /**
   * The largest loudness of the played notes, starting from 0 (the
   * running Math.max over the notes switched on).
   */
  function MaxLoudness(loudnesses: seq<int>): (m: int)
    ensures m >= 0
    ensures forall i | 0 <= i < |loudnesses| :: loudnesses[i] <= m
    ensures m == 0 || m in loudnesses
    ensures (forall i | 0 <= i < |loudnesses| :: loudnesses[i] <= 127) ==> m <= 127
  {
    if loudnesses == [] then 0
    else Max(MaxLoudness(loudnesses[..|loudnesses| - 1]), loudnesses[|loudnesses| - 1])
  }

  /** The largest dispatch count of the note owners, or 0 when there are none. */
  function MaxDispatches(dispatches: seq<int>): (m: int)
    ensures dispatches == [] ==> m == 0
    ensures dispatches != [] ==> m in dispatches
    ensures forall i | 0 <= i < |dispatches| :: dispatches[i] <= m
  {
    if dispatches == [] then 0
    else if |dispatches| == 1 then dispatches[0]
    else Max(MaxDispatches(dispatches[..|dispatches| - 1]), dispatches[|dispatches| - 1])
  }

  /**
   * The velocity of a dispatch note: maxLoudness * dispatches / maxDispatches,
   * with Java's truncating division; the player computes it only when
   * maxDispatches is not 0.
   */
  function DispatchVelocity(maxLoudness: int, dispatches: int, maxDispatches: int): (velocity: int)
    requires maxDispatches != 0
    ensures dispatches == 0 ==> velocity == 0
    ensures 0 <= maxLoudness && 0 <= dispatches && 0 < maxDispatches ==> velocity >= 0
  {
    JavaDiv(maxLoudness * dispatches, maxDispatches)
  }

  /** A velocity lies between 0 and maxLoudness when the count is at most the maximum. */
  lemma VelocityBounded(maxLoudness: int, dispatches: int, maxDispatches: int)
    requires 0 <= maxLoudness && 0 <= dispatches <= maxDispatches && maxDispatches != 0
    ensures 0 <= DispatchVelocity(maxLoudness, dispatches, maxDispatches) <= maxLoudness
  {
    MulLe(dispatches, maxDispatches, maxLoudness);
    assert maxLoudness * dispatches == dispatches * maxLoudness;
    assert maxLoudness * maxDispatches == maxDispatches * maxLoudness;
    DivMonotone(maxLoudness * dispatches, maxLoudness * maxDispatches, maxDispatches);
    MulDiv(maxLoudness, maxDispatches);
  }

  /** The process with the most dispatches is played at exactly maxLoudness. */
  lemma VelocityOfBusiest(maxLoudness: int, maxDispatches: int)
    requires maxDispatches > 0
    ensures DispatchVelocity(maxLoudness, maxDispatches, maxDispatches) == maxLoudness
  {
    assert maxLoudness * maxDispatches == maxDispatches * maxLoudness;
    if maxLoudness >= 0 {
      MulDiv(maxLoudness, maxDispatches);
    } else {
      MulDiv(-maxLoudness, maxDispatches);
      assert Abs(maxLoudness * maxDispatches) == -maxLoudness * maxDispatches;
    }
  }

  /** Every dispatch note of the interval is at most as loud as the loudest runtime note. */
  lemma VelocitiesBounded(maxLoudness: int, dispatches: seq<int>, i: int)
    requires 0 <= maxLoudness && 0 <= i < |dispatches|
    requires forall j | 0 <= j < |dispatches| :: dispatches[j] >= 0
    requires MaxDispatches(dispatches) != 0
    ensures 0 <= DispatchVelocity(maxLoudness, dispatches[i], MaxDispatches(dispatches)) <= maxLoudness
  {
    VelocityBounded(maxLoudness, dispatches[i], MaxDispatches(dispatches));
  }

  lemma MulLe(x: int, y: int, c: int)
    requires x <= y && c >= 0
    ensures x * c <= y * c
  {
    assert y * c - x * c == (y - x) * c;
  }

  lemma DivMonotone(a: int, b: int, c: int)
    requires 0 <= a <= b && c > 0
    ensures a / c <= b / c
  {
    var qa, qb := a / c, b / c;
    assert qa * c + a % c == a;
    assert qb * c + b % c == b;
    if qa > qb {
      MulLe(qb + 1, qa, c);
    }
  }

  lemma MulDiv(k: int, c: int)
    requires c > 0
    ensures (k * c) / c == k
  {
    var q, r := (k * c) / c, (k * c) % c;
    assert q * c + r == k * c;
    if q < k {
      MulLe(q + 1, k, c);
    }
    if q > k {
      MulLe(k + 1, q, c);
    }
  }
}
