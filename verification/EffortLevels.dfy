/** Reasoning-effort levels, and what a rejection message says about them. */
module EffortLevels {
  import opened Base

  /** The levels the client sends, lowest first. */
  const LADDER := ["low", "medium", "high", "xhigh", "max"]

  /** A level's place on the ladder, or -1. */
  function Rank(level: string): int {
    IndexIn(LADDER, level)
  }

  function IndexIn(levels: seq<string>, level: string): (k: int)
    ensures -1 <= k < |levels|
    ensures k >= 0 ==> levels[k] == level
    ensures k == -1 <==> level !in levels
  {
    if levels == [] then -1
    else if levels[0] == level then 0
    else
      var k := IndexIn(levels[1..], level);
      if k == -1 then -1 else k + 1
  }

  // ---- reading a message ----

  predicate IsWordChar(c: char) {
    'a' <= c <= 'z' || 'A' <= c <= 'Z' || '0' <= c <= '9' || c == '_'
  }

  function Lower(text: string): string {
    seq(|text|, i requires 0 <= i < |text| =>
      if 'A' <= text[i] <= 'Z' then (text[i] as int + 32) as char else text[i])
  }

  const CAPITALS := "ABCDEFGHIJKLMNOPQRSTUVWXYZ"
  const SMALLS := "abcdefghijklmnopqrstuvwxyz"

  /** A capital letter becomes the small one, and nothing else changes. */
  lemma LowerIs(text: string, i: nat, k: nat)
    requires i < |text| && k < 26
    ensures |Lower(text)| == |text|
    ensures text[i] == CAPITALS[k] ==> Lower(text)[i] == SMALLS[k]
    ensures text[i] !in CAPITALS ==> Lower(text)[i] == text[i]
  {
    assert CAPITALS[k] as int == 'A' as int + k && SMALLS[k] as int == 'a' as int + k;
    if 'A' <= text[i] <= 'Z' {
      var at := text[i] as int - 'A' as int;
      assert CAPITALS[at] == text[i];
    }
  }

  /** The words of a text: its maximal runs of word characters, `word` being the run under way. */
  function Words(text: string, word: string): set<string> {
    if text == [] then {word}
    else if IsWordChar(text[0]) then Words(text[1..], word + [text[0]])
    else {word} + Words(text[1..], [])
  }

  /** The levels a message names, in any letter case, as whole words. */
  function NamedLevels(message: string): (named: set<string>)
    ensures forall level :: level in named ==> level in LADDER
  {
    set word | word in Words(message, "") && Lower(word) in LADDER :: Lower(word)
  }

  /** Whether a message mentions `reasoning_effort` or `reasoning effort`, in any letter case. */
  predicate MentionsEffort(message: string) {
    |message| >= 16 &&
    (Lower(message[..16]) == "reasoning_effort" || Lower(message[..16]) == "reasoning effort" ||
     MentionsEffort(message[1..]))
  }

  // ---- what the message patterns match ----

  /** `text[a..b]` is a whole word: word characters between boundaries. */
  ghost predicate WholeWord(text: string, a: nat, b: nat) {
    && a <= b <= |text|
    && (forall i :: a <= i < b ==> IsWordChar(text[i]))
    && (a > 0 ==> !IsWordChar(text[a - 1]))
    && (b < |text| ==> !IsWordChar(text[b]))
  }

  /** The word under way ends at `b`. */
  ghost predicate WordEnds(text: string, b: nat) {
    b <= |text| && (forall i :: 0 <= i < b ==> IsWordChar(text[i])) && (b < |text| ==> !IsWordChar(text[b]))
  }

  lemma WordEndsOn(text: string, b: nat)
    requires text != [] && WordEnds(text[1..], b)
    ensures IsWordChar(text[0]) ==> WordEnds(text, b + 1) && text[..b + 1] == [text[0]] + text[1..][..b]
    ensures !IsWordChar(text[0]) ==> WholeWord(text, 1, b + 1) && text[1..b + 1] == text[1..][..b]
  {
    assert forall i :: 0 < i < |text| ==> text[i] == text[1..][i - 1];
  }

  lemma WholeWordOn(text: string, a: nat, b: nat)
    requires text != [] && a > 0 && WholeWord(text[1..], a, b)
    ensures WholeWord(text, a + 1, b + 1) && text[a + 1..b + 1] == text[1..][a..b]
  {
    assert forall i :: 0 < i < |text| ==> text[i] == text[1..][i - 1];
  }

  /** Where a word stands: it ends the one under way, or is whole further on. */
  lemma {:induction false} WordStands(text: string, word: string, w: string) returns (first: bool, a: nat, b: nat)
    requires w in Words(text, word)
    ensures first ==> WordEnds(text, b) && w == word + text[..b]
    ensures !first ==> a > 0 && WholeWord(text, a, b) && w == text[a..b]
  {
    if text == [] || (!IsWordChar(text[0]) && w == word) {
      first, a, b := true, 0, 0;
      assert word + text[..0] == word;
    } else {
      var under := if IsWordChar(text[0]) then word + [text[0]] else [];
      first, a, b := WordStands(text[1..], under, w);
      if first {
        WordEndsOn(text, b);
        if IsWordChar(text[0]) {
          Associates(word, [text[0]], text[1..][..b]);
        } else {
          first, a := false, 1;
        }
        b := b + 1;
      } else {
        WholeWordOn(text, a, b);
        a, b := a + 1, b + 1;
      }
    }
  }

  lemma {:induction false} WordEndsIsAWord(text: string, word: string, b: nat)
    requires WordEnds(text, b)
    ensures word + text[..b] in Words(text, word)
  {
    if b == 0 {
      assert word + text[..0] == word;
    } else {
      var rest := text[1..];
      assert forall i :: 0 <= i < |rest| ==> rest[i] == text[i + 1];
      WordEndsIsAWord(rest, word + [text[0]], b - 1);
      assert text[..b] == [text[0]] + rest[..b - 1];
      Associates(word, [text[0]], rest[..b - 1]);
    }
  }

  lemma {:induction false} WholeWordsAreWords(text: string, word: string, a: nat, b: nat)
    requires a > 0 && WholeWord(text, a, b)
    ensures text[a..b] in Words(text, word)
  {
    var rest := text[1..];
    assert forall i :: 0 <= i < |rest| ==> rest[i] == text[i + 1];
    SliceOfSlice(text, 1, |text|, a - 1, b - 1);
    assert text[1..|text|] == rest;
    if a > 1 {
      WholeWordsAreWords(rest, if IsWordChar(text[0]) then word + [text[0]] else [], a - 1, b - 1);
    } else {
      WordEndsIsAWord(rest, [], b - 1);
      assert [] + rest[..b - 1] == text[a..b];
    }
  }

  /** A message names a level exactly when the level, in any letter case, stands in it as a whole word. */
  lemma NamedIff(message: string, level: string)
    ensures level in NamedLevels(message) <==>
              level in LADDER && exists a: nat, b: nat :: WholeWord(message, a, b) && Lower(message[a..b]) == level
  {
    if level in NamedLevels(message) {
      var w :| w in Words(message, "") && Lower(w) == level;
      var first, a, b := WordStands(message, "", w);
      if first { assert WholeWord(message, 0, b) && message[0..b] == w; }
    }
    if a: nat, b: nat :| WholeWord(message, a, b) && Lower(message[a..b]) == level && level in LADDER {
      if a == 0 {
        WordEndsIsAWord(message, "", b);
        assert "" + message[..b] == message[a..b];
      } else {
        WholeWordsAreWords(message, "", a, b);
      }
    }
  }

  predicate FieldAt(message: string, k: nat) {
    k + 16 <= |message| &&
    (Lower(message[k..k + 16]) == "reasoning_effort" || Lower(message[k..k + 16]) == "reasoning effort")
  }

  lemma FieldInTail(message: string, k: nat)
    requires message != []
    ensures FieldAt(message[1..], k) <==> FieldAt(message, k + 1)
  {
    if k + 17 <= |message| { assert message[1..][k..k + 16] == message[k + 1..k + 1 + 16]; }
  }

  /** A message blames the field exactly when its name, with an underscore or a space, in any letter
      case, stands anywhere in it. */
  lemma {:induction false} MentionsIff(message: string)
    ensures MentionsEffort(message) <==> exists k: nat :: FieldAt(message, k)
  {
    if |message| >= 16 {
      MentionsIff(message[1..]);
      assert message[0..0 + 16] == message[..16];
      assert FieldAt(message, 0) <==>
        Lower(message[..16]) == "reasoning_effort" || Lower(message[..16]) == "reasoning effort";
      if k: nat :| FieldAt(message, k) {
        if k > 0 { FieldInTail(message, k - 1); }
      }
      if k: nat :| FieldAt(message[1..], k) { FieldInTail(message, k); }
    }
  }

  // ---- choosing what to send instead ----

  function Keep(levels: seq<string>, named: set<string>): seq<string> {
    if levels == [] then []
    else (if levels[0] in named then [levels[0]] else []) + Keep(levels[1..], named)
  }

  function Below(levels: seq<string>, rank: int): seq<string> {
    if levels == [] then []
    else (if Rank(levels[0]) < rank then [levels[0]] else []) + Below(levels[1..], rank)
  }

  function Pick(below: seq<string>, ranked: seq<string>): Option<string> {
    if below != [] then Some(below[|below| - 1])
    else if ranked != [] then Some(ranked[0])
    else None
  }

  /** Where to go from `sent`, given the text of its rejection. */
  function EffortNamedIn(message: string, sent: string): Option<string> {
    var ranked := Keep(LADDER, NamedLevels(message) - {sent});
    Pick(Below(ranked, Rank(sent)), ranked)
  }

  /** `choice` is the one of `levels` that comes closest to `sent` from below, or the first of the ladder
      among them when all lie above, or nothing when there are none. */
  ghost predicate BestOf(levels: set<string>, sent: string, choice: Option<string>) {
    match choice
    case None => levels == {}
    case Some(best) =>
      best in levels &&
      if exists level :: level in levels && Rank(level) <= Rank(sent)
      then Rank(best) <= Rank(sent) && forall level :: level in levels && Rank(level) <= Rank(sent) ==> Rank(level) <= Rank(best)
      else forall level :: level in levels ==> Rank(best) <= Rank(level)
  }

  ghost predicate Climbing(levels: seq<string>) {
    forall i, j :: 0 <= i < j < |levels| ==> Rank(levels[i]) < Rank(levels[j])
  }

  lemma ClimbsOnto(level: string, rest: seq<string>)
    requires Climbing(rest) && forall other :: other in rest ==> Rank(level) < Rank(other)
    ensures Climbing([level] + rest)
  {
  }

  lemma {:induction false} KeepClimbs(levels: seq<string>, named: set<string>)
    requires Climbing(levels)
    ensures Climbing(Keep(levels, named))
    ensures forall level :: level in Keep(levels, named) <==> level in levels && level in named
  {
    if levels != [] {
      assert forall i :: 0 <= i < |levels[1..]| ==> levels[1..][i] == levels[i + 1];
      KeepClimbs(levels[1..], named);
      ClimbsOnto(levels[0], Keep(levels[1..], named));
    }
  }

  lemma {:induction false} BelowClimbs(levels: seq<string>, rank: int)
    requires Climbing(levels)
    ensures Climbing(Below(levels, rank))
    ensures forall level :: level in Below(levels, rank) <==> level in levels && Rank(level) < rank
  {
    if levels != [] {
      assert forall i :: 0 <= i < |levels[1..]| ==> levels[1..][i] == levels[i + 1];
      BelowClimbs(levels[1..], rank);
      ClimbsOnto(levels[0], Below(levels[1..], rank));
    }
  }

  lemma LadderClimbs()
    ensures Climbing(LADDER)
    ensures forall k :: 0 <= k < |LADDER| ==> Rank(LADDER[k]) == k
  {
    assert "low"[0] != "max"[0];
    assert forall a, b :: 0 <= a < b < |LADDER| ==> LADDER[a] != LADDER[b];
  }

  lemma EqualRanks(a: string, b: string)
    requires a in LADDER && Rank(a) == Rank(b)
    ensures a == b
  {
  }

  lemma LastIsHighest(levels: seq<string>, level: string)
    requires Climbing(levels) && level in levels
    ensures Rank(level) <= Rank(levels[|levels| - 1])
  {
  }

  lemma FirstIsLowest(levels: seq<string>, level: string)
    requires Climbing(levels) && level in levels
    ensures Rank(levels[0]) <= Rank(level)
  {
  }

  lemma PickIsBest(named: set<string>, sent: string, below: seq<string>, ranked: seq<string>)
    requires Climbing(ranked) && forall level :: level in ranked <==> level in named
    requires Climbing(below) && forall level :: level in below <==> level in named && Rank(level) < Rank(sent)
    requires forall level :: level in named ==> Rank(level) != Rank(sent)
    ensures BestOf(named, sent, Pick(below, ranked))
  {
    if below != [] {
      assert below[|below| - 1] in below;
      forall level | level in below { LastIsHighest(below, level); }
    } else if ranked != [] {
      assert ranked[0] in ranked;
      forall level | level in ranked { FirstIsLowest(ranked, level); }
      assert forall level :: level in named ==> level !in below;
    } else {
      assert forall level :: level in named ==> level in ranked;
    }
  }

  /** The fallback is the best of the other levels the message names. */
  lemma EffortNamedIsBest(message: string, sent: string)
    ensures BestOf(NamedLevels(message) - {sent}, sent, EffortNamedIn(message, sent))
    ensures EffortNamedIn(message, sent).Some? ==> EffortNamedIn(message, sent).value in LADDER
  {
    KeepIsBest(NamedLevels(message) - {sent}, sent);
  }

  lemma EffortNamedIsOnLadder(message: string, sent: string)
    ensures EffortNamedIn(message, sent).Some? ==> EffortNamedIn(message, sent).value in LADDER
  {
    EffortNamedIsBest(message, sent);
  }

  lemma KeepIsBest(named: set<string>, sent: string)
    requires sent !in named && forall level :: level in named ==> level in LADDER
    ensures var choice := Pick(Below(Keep(LADDER, named), Rank(sent)), Keep(LADDER, named));
            BestOf(named, sent, choice) && (choice.Some? ==> choice.value in LADDER)
  {
    LadderClimbs();
    KeepClimbs(LADDER, named);
    var ranked := Keep(LADDER, named);
    BelowClimbs(ranked, Rank(sent));
    forall level | level in named
      ensures Rank(level) != Rank(sent)
    {
      if Rank(level) == Rank(sent) { EqualRanks(level, sent); }
    }
    PickIsBest(named, sent, Below(ranked, Rank(sent)), ranked);
  }
}
