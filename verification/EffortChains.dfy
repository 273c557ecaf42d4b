/** Stepping down from level to level until one stays. */
module EffortChains {
  import opened Base
  import opened EffortLevels

  /** Where one level leads: it stays, or something else is named instead (`None`: no level). */
  datatype Next = Stays | Leads(instead: Option<string>)

  type Steps = string -> Next

  function Step(steps: Steps, level: Option<string>): Next {
    if level.None? then Stays else steps(level.value)
  }

  /** Stepping down from `level` comes to rest after exactly `d` steps. Levels that are named in a
      circle come to rest after no number of steps. */
  ghost predicate RestsAfter(steps: Steps, level: Option<string>, d: nat)
    decreases d
  {
    match Step(steps, level)
    case Stays => d == 0
    case Leads(instead) => d > 0 && RestsAfter(steps, instead, d - 1)
  }

  /** The level reached after `k` steps. */
  function At(steps: Steps, level: Option<string>, k: nat): Option<string>
    decreases k
  {
    if k == 0 then level
    else
      match Step(steps, level)
      case Stays => level
      case Leads(instead) => At(steps, instead, k - 1)
  }

  lemma {:induction false} RestIsUnique(steps: Steps, level: Option<string>, d: nat, d': nat)
    requires RestsAfter(steps, level, d) && RestsAfter(steps, level, d')
    ensures d == d'
    decreases d
  {
    var next := Step(steps, level);
    if next.Leads? { RestIsUnique(steps, next.instead, d - 1, d' - 1); }
  }

  /** After `k` of the `d` steps, `d - k` are left, and the next of them leads one further. */
  lemma {:induction false} RestFrom(steps: Steps, level: Option<string>, d: nat, k: nat)
    requires RestsAfter(steps, level, d) && k <= d
    ensures RestsAfter(steps, At(steps, level, k), d - k)
    ensures k < d ==> Step(steps, At(steps, level, k)) == Leads(At(steps, level, k + 1))
    decreases k
  {
    var next := Step(steps, level);
    if k > 0 { RestFrom(steps, next.instead, d - 1, k - 1); }
  }

  /** Only levels of the ladder are ever named. */
  ghost predicate NamesLadder(steps: Steps) {
    forall level :: steps(level).Leads? && steps(level).instead.Some? ==> steps(level).instead.value in LADDER
  }

  function Members(levels: seq<string>): set<string> { set level | level in levels }

  lemma {:induction false} MembersSize(levels: seq<string>)
    ensures |Members(levels)| <= |levels|
  {
    if levels != [] {
      MembersSize(levels[1..]);
      assert Members(levels) == {levels[0]} + Members(levels[1..]);
    }
  }

  lemma {:induction false} SubsetSize(a: set<string>, b: set<string>)
    requires a <= b
    ensures |a| <= |b|
  {
    if a != {} {
      var x :| x in a;
      SubsetSize(a - {x}, b - {x});
    }
  }

  ghost predicate RestsWithin(steps: Steps, level: string, d: nat) {
    exists i: nat :: i <= d && RestsAfter(steps, Some(level), i)
  }

  /** The levels passed on the way to rest are different and on the ladder: a set of levels of the
      ladder with as many members as there are steps. */
  lemma {:induction false} PassedLevels(steps: Steps, level: Option<string>, d: nat) returns (passed: set<string>)
    requires NamesLadder(steps) && RestsAfter(steps, level, d)
    requires level.Some? ==> level.value in LADDER
    ensures |passed| == d && passed <= Members(LADDER)
    ensures forall x :: x in passed ==> RestsWithin(steps, x, d)
    decreases d
  {
    if d == 0 {
      passed := {};
    } else {
      var rest := PassedLevels(steps, Step(steps, level).instead, d - 1);
      if level.value in rest {
        var i: nat :| i <= d - 1 && RestsAfter(steps, Some(level.value), i);
        RestIsUnique(steps, level, d, i);
      }
      passed := {level.value} + rest;
      assert level == Some(level.value) && RestsWithin(steps, level.value, d);
      forall x | x in rest
        ensures RestsWithin(steps, x, d)
      {
        var i: nat :| i <= d - 1 && RestsAfter(steps, Some(x), i);
      }
    }
  }

  /** Pigeonhole: from a level on the ladder, a step-down that comes to rest does so within as many
      steps as the ladder has levels. */
  lemma RestIsWithinBound(steps: Steps, level: string, d: nat)
    requires NamesLadder(steps) && level in LADDER && RestsAfter(steps, Some(level), d)
    ensures d <= |LADDER|
  {
    var passed := PassedLevels(steps, Some(level), d);
    SubsetSize(passed, Members(LADDER));
    MembersSize(LADDER);
  }
}
