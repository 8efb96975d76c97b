/** The sparkles around the Yes button: a bounded FIFO that an interval timer
    appends to once the No button has dodged often enough, and that a
    one-shot timer trims from the front. */
module Sparkles {

  /** An append keeps at most this many earlier sparkles. */
  const Keep: nat := 12
  /** Sparkles appear from this many attempts on. */
  const SpawnFrom: nat := 4

  datatype Sparkle = Sparkle(id: nat, x: real, y: real, size: real, opacity: real)

  /** The three random draws, each in [0, 1), that place and size a sparkle. */
  datatype SparkleDraws = SparkleDraws(x: real, y: real, size: real)

  predicate ValidDraws(d: SparkleDraws) {
    0.0 <= d.x < 1.0 && 0.0 <= d.y < 1.0 && 0.0 <= d.size < 1.0
  }

  /** A new sparkle: within 60px left or right and 40px up or down of the
      button's centre, 4 to 12 pixels large, fully opaque. */
  function NewSparkle(id: nat, d: SparkleDraws): (s: Sparkle)
    requires ValidDraws(d)
    ensures s.id == id && s.opacity == 1.0
    ensures -60.0 <= s.x < 60.0 && -40.0 <= s.y < 40.0 && 4.0 <= s.size < 12.0
  {
    Sparkle(id, (d.x - 0.5) * 120.0, (d.y - 0.5) * 80.0, 4.0 + d.size * 8.0, 1.0)
  }

  /** The spawn interval in milliseconds: faster with every attempt. */
  function SpawnInterval(attempts: nat): (ms: int)
    ensures ms <= 200
    ensures attempts <= 10 ==> ms >= 100
  {
    200 - attempts * 10
  }

  /** While sparkles spawn (4 to 10 attempts) the interval stays between 100
      and 160 ms and shortens by 10 ms per attempt. */
  lemma SpawnIntervalBounds(attempts: nat)
    requires SpawnFrom <= attempts <= 10
    ensures 100 <= SpawnInterval(attempts) <= 160
    ensures attempts < 10 ==> SpawnInterval(attempts + 1) == SpawnInterval(attempts) - 10
  {
  }

  /** JavaScript's `s.slice(-n)` for a positive `n`: the last `n` elements,
      or all of a shorter `s`. */
  function LastAtMost<T>(s: seq<T>, n: nat): (r: seq<T>)
    requires n > 0
    ensures |r| == if |s| < n then |s| else n
    ensures r == s[|s| - |r|..]
  {
    if |s| <= n then s else s[|s| - n..]
  }

  /** The buffer after a spawn: the last twelve earlier sparkles, then the new one. */
  function Appended(prev: seq<Sparkle>, s: Sparkle): (r: seq<Sparkle>)
    ensures 1 <= |r| <= Keep + 1 && r[|r| - 1] == s
  {
    LastAtMost(prev, Keep) + [s]
  }

  /** The buffer after a prune: `prev.slice(1)`. */
  function Pruned(prev: seq<Sparkle>): (r: seq<Sparkle>)
    ensures |r| == if prev == [] then 0 else |prev| - 1
  {
    if prev == [] then [] else prev[1..]
  }

  /** An append holds at most 13 sparkles, the newest last, preceded by the
      most recent earlier ones in their order. */
  lemma AppendedShape(prev: seq<Sparkle>, s: Sparkle)
    ensures var r := Appended(prev, s);
      && |r| <= Keep + 1
      && |r| == (if |prev| < Keep then |prev| else Keep) + 1
      && r[|r| - 1] == s
      && r[..|r| - 1] == prev[|prev| - (|r| - 1)..]
  {
    var r := Appended(prev, s);
    assert r[..|r| - 1] == LastAtMost(prev, Keep);
  }

  /** A prune drops exactly the oldest sparkle and keeps the rest in order. */
  lemma PrunedShape(prev: seq<Sparkle>)
    requires prev != []
    ensures [prev[0]] + Pruned(prev) == prev
    ensures |Pruned(prev)| == |prev| - 1
  {
  }

  /** Sparkle ids increase from the oldest to the newest. */
  predicate IdsIncreasing(s: seq<Sparkle>) {
    forall i, j :: 0 <= i < j < |s| ==> s[i].id < s[j].id
  }

  /** Every id has already been handed out by a counter now at `next`. */
  predicate IdsBelow(s: seq<Sparkle>, next: nat) {
    forall i :: 0 <= i < |s| ==> s[i].id < next
  }

  /** Appending a sparkle that carries the counter's current value keeps ids
      increasing and below the advanced counter. */
  lemma AppendKeepsIdsIncreasing(prev: seq<Sparkle>, next: nat, s: Sparkle)
    requires s.id == next
    requires IdsIncreasing(prev) && IdsBelow(prev, next)
    ensures IdsIncreasing(Appended(prev, s))
    ensures IdsBelow(Appended(prev, s), next + 1)
  {
    var k := |prev| - |LastAtMost(prev, Keep)|;
    var r := Appended(prev, s);
    assert r == prev[k..] + [s];
    forall i | 0 <= i < |r| ensures r[i].id < next + 1 {
      if i < |r| - 1 {
        assert r[i] == prev[k + i];
      }
    }
    forall i, j | 0 <= i < j < |r| ensures r[i].id < r[j].id {
      assert r[i] == prev[k + i];
      if j < |r| - 1 {
        assert r[j] == prev[k + j];
      }
    }
  }

  /** Pruning keeps ids increasing. */
  lemma PruneKeepsIdsIncreasing(prev: seq<Sparkle>, next: nat)
    requires IdsIncreasing(prev) && IdsBelow(prev, next)
    ensures IdsIncreasing(Pruned(prev)) && IdsBelow(Pruned(prev), next)
  {
    if prev != [] {
      forall i, j | 0 <= i < j < |prev| - 1 ensures Pruned(prev)[i].id < Pruned(prev)[j].id {
        assert Pruned(prev)[i] == prev[i + 1] && Pruned(prev)[j] == prev[j + 1];
      }
      forall i | 0 <= i < |prev| - 1 ensures Pruned(prev)[i].id < next {
        assert Pruned(prev)[i] == prev[i + 1];
      }
    }
  }

  /** The sparkle state held by the page: the list and the id counter. */
  class SparkleField {
    var sparkles: seq<Sparkle>
    var counter: nat

    ghost predicate Valid()
      reads this
    {
      |sparkles| <= Keep + 1 && IdsIncreasing(sparkles) && IdsBelow(sparkles, counter)
    }

    constructor ()
      ensures Valid() && sparkles == [] && counter == 0
    {
      sparkles := [];
      counter := 0;
    }

    /** One tick of the spawn interval. The interval runs only while the
        question is open and at least four attempts have been made. */
    method Spawn(attempts: nat, accepted: bool, d: SparkleDraws)
      requires Valid() && ValidDraws(d)
      modifies this
      ensures Valid()
      ensures attempts >= SpawnFrom && !accepted ==>
                sparkles == Appended(old(sparkles), NewSparkle(old(counter), d)) && counter == old(counter) + 1
      ensures attempts < SpawnFrom || accepted ==> sparkles == old(sparkles) && counter == old(counter)
    {
      if attempts < SpawnFrom || accepted {
        return;
      }
      var s := NewSparkle(counter, d);
      counter := counter + 1;
      AppendKeepsIdsIncreasing(sparkles, counter - 1, s);
      AppendedShape(sparkles, s);
      sparkles := LastAtMost(sparkles, Keep) + [s];
    }

    /** The 800 ms clean-up timer: drop the oldest sparkle. */
    method Prune()
      requires Valid()
      modifies this`sparkles
      ensures Valid()
      ensures sparkles == Pruned(old(sparkles))
    {
      PruneKeepsIdsIncreasing(sparkles, counter);
      if sparkles != [] {
        sparkles := sparkles[1..];
      }
    }
  }
}
