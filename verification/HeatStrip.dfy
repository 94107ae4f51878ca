/**
 * The verdict on an irreversible heat strip (pipeline.ts) and the vote over several frames (combine.ts). Levels and
 * confidences are given; how they are measured is not part of this model.
 */
module HeatStrip {
  import opened Wrappers

  const INTACT := 0
  const TRIGGERED := 1
  const UNREADABLE := 2
  const MISSING := 3
  const HEAT_DECISIVE_INDEX := 4
  const CONFIDENCE_THRESHOLD := 0.85

  type level = x: nat | x < 2

  /** One field as sampled: 0 white (intact), 1 black (triggered). */
  datatype Field = Field(level: level, confidence: real, glare: bool)

  datatype Spot = Spot(temp: real, decisive: bool)

  predicate Decided(indicator: nat) { indicator == INTACT || indicator == TRIGGERED }

  // ---------- one frame ----------

  predicate Sure(f: Field) { f.confidence >= CONFIDENCE_THRESHOLD }

  /** A triggered field above an intact one, at least one of them confident; fields with glare are left out. */
  predicate Clashes(fields: seq<Field>, layout: seq<Spot>, i: nat, j: nat)
    requires |fields| == |layout| && i < |layout| && j < |layout|
  {
    && !fields[i].glare && !fields[j].glare && layout[i].temp < layout[j].temp
    && fields[i].level == 0 && fields[j].level == 1 && (Sure(fields[i]) || Sure(fields[j]))
  }

  predicate Consistent(fields: seq<Field>, layout: seq<Spot>)
    requires |fields| == |layout|
  {
    forall i, j :: 0 <= i < |layout| && 0 <= j < |layout| ==> !Clashes(fields, layout, i, j)
  }

  /** The first spot marked decisive, or else field 4. */
  function DecisiveFrom(layout: seq<Spot>, i: nat): (d: nat)
    requires i <= |layout|
    ensures d < |layout| || d == HEAT_DECISIVE_INDEX
    decreases |layout| - i
  {
    if i == |layout| then HEAT_DECISIVE_INDEX else if layout[i].decisive then i else DecisiveFrom(layout, i + 1)
  }

  function DecisiveIndex(layout: seq<Spot>): nat { DecisiveFrom(layout, 0) }

  datatype Verdict = Verdict(heat: nat, levels: seq<nat>, confidence: real, consistent: bool, glare: bool)

  function Measured(decisive: Field, usable: bool): nat {
    if !usable || decisive.glare || !Sure(decisive) then UNREADABLE else decisive.level
  }

  /** The level of field `i`; under glare only what the measured decisive field implies. */
  function LevelOf(fields: seq<Field>, layout: seq<Spot>, d: nat, measured: nat, i: nat): Option<nat>
    requires |fields| == |layout| && i < |fields| && d < |fields|
  {
    if !fields[i].glare then Some(fields[i].level)
    else if i == d then None
    else if layout[i].temp > layout[d].temp && measured == INTACT then Some(0)
    else if !(layout[i].temp > layout[d].temp) && measured == TRIGGERED then Some(1)
    else None
  }

  function Levels(fields: seq<Field>, layout: seq<Spot>, d: nat, measured: nat): (ls: seq<Option<nat>>)
    requires |fields| == |layout| && d < |fields|
    ensures |ls| == |fields| && forall i :: 0 <= i < |ls| ==> ls[i] == LevelOf(fields, layout, d, measured, i)
  {
    seq(|fields|, i requires 0 <= i < |fields| => LevelOf(fields, layout, d, measured, i))
  }

  predicate AllKnown(levels: seq<Option<nat>>) { forall i :: 0 <= i < |levels| ==> levels[i].Some? }

  function Known(levels: seq<Option<nat>>): seq<nat> {
    seq(|levels|, i requires 0 <= i < |levels| => match levels[i] case Some(x) => x case None => 0)
  }

  function HeatVerdict(fields: seq<Field>, layout: seq<Spot>, wbOk: bool): Verdict
    requires |fields| == |layout| && DecisiveIndex(layout) < |fields|
  {
    var d := DecisiveIndex(layout);
    var decisive, consistent := fields[d], Consistent(fields, layout);
    var usable := wbOk && consistent;
    var measured := Measured(decisive, usable);
    var levels := Levels(fields, layout, d, measured);
    var glare := usable && (decisive.glare || (Decided(measured) && !AllKnown(levels)));
    var heat := if glare then UNREADABLE else measured;
    Verdict(heat, if Decided(heat) then Known(levels) else NO_LEVELS,
            if usable && !glare then decisive.confidence else 0.0, consistent, glare)
  }

  /** Temperatures differ, and no field of the strip is triggered above an intact one. */
  predicate Physical(layout: seq<Spot>, truth: seq<level>) {
    && |truth| == |layout|
    && (forall i, j :: 0 <= i < j < |layout| ==> layout[i].temp != layout[j].temp)
    && (forall i, j :: 0 <= i < |layout| && 0 <= j < |layout| && layout[i].temp < layout[j].temp ==>
        truth[j] <= truth[i])
  }

  /** Every field that no glare hides shows its true level. */
  predicate ReadRight(fields: seq<Field>, truth: seq<level>)
    requires |fields| == |truth|
  {
    forall i :: 0 <= i < |fields| && !fields[i].glare ==> fields[i].level == truth[i]
  }

  /**
   * A real strip read right is never called inconsistent, and a decided verdict reports the true level of every field.
   */
  lemma DecidedIsTrue(fields: seq<Field>, layout: seq<Spot>, wbOk: bool, truth: seq<level>)
    requires |fields| == |layout| && DecisiveIndex(layout) < |fields| && Physical(layout, truth)
        && ReadRight(fields, truth)
    ensures var v := HeatVerdict(fields, layout, wbOk);
      v.consistent && (Decided(v.heat) ==> v.levels == truth && v.heat == truth[DecisiveIndex(layout)])
  {
    hide DecisiveIndex;
    var v, d := HeatVerdict(fields, layout, wbOk), DecisiveIndex(layout);
    if Decided(v.heat) {
      var levels := Levels(fields, layout, d, v.heat);
      forall i | 0 <= i < |fields| ensures levels[i] == Some(truth[i]) {
        if fields[i].glare { HiddenLevel(fields, layout, truth, d, v.heat, i); }
      }
    }
  }

  lemma HiddenLevel(fields: seq<Field>, layout: seq<Spot>, truth: seq<level>, d: nat, measured: nat, i: nat)
    requires |fields| == |layout| && i < |fields| && d < |fields| && Physical(layout, truth)
    requires fields[i].glare && measured == truth[d] && LevelOf(fields, layout, d, measured, i).Some?
    ensures LevelOf(fields, layout, d, measured, i) == Some(truth[i])
  {
    if i < d { assert layout[i].temp != layout[d].temp; } else if d < i { assert layout[d].temp != layout[i].temp; }
  }

  /**
   * When a real strip read right is decided: the white balance is usable, the decisive field is confident and free of
   * glare, and every field under glare lies on the side that the decisive field settles.
   */
  lemma DecidedIff(fields: seq<Field>, layout: seq<Spot>, wbOk: bool, truth: seq<level>)
    requires |fields| == |layout| && DecisiveIndex(layout) < |fields| && Physical(layout, truth)
        && ReadRight(fields, truth)
    ensures var d := DecisiveIndex(layout);
      Decided(HeatVerdict(fields, layout, wbOk).heat) <==>
        && wbOk && !fields[d].glare && Sure(fields[d])
        && forall i :: 0 <= i < |fields| && fields[i].glare ==>
             if truth[d] == INTACT then layout[i].temp > layout[d].temp else layout[i].temp <= layout[d].temp
  {
    hide DecisiveIndex;
    DecidedIsTrue(fields, layout, wbOk, truth);
    var d := DecisiveIndex(layout);
    var measured := Measured(fields[d], wbOk);
    if Decided(measured) { KnownIff(fields, layout, truth, d, measured); }
  }

  lemma KnownIff(fields: seq<Field>, layout: seq<Spot>, truth: seq<level>, d: nat, measured: nat)
    requires |fields| == |layout| == |truth| && d < |fields| && !fields[d].glare && Decided(measured)
        && measured == truth[d]
    ensures AllKnown(Levels(fields, layout, d, measured)) <==>
      forall i :: 0 <= i < |fields| && fields[i].glare ==>
        if truth[d] == INTACT then layout[i].temp > layout[d].temp else layout[i].temp <= layout[d].temp
  {
    var levels := Levels(fields, layout, d, measured);
    forall i | 0 <= i < |fields|
      ensures levels[i].Some? <==>
        !fields[i].glare || (if truth[d] == INTACT then layout[i].temp > layout[d].temp
            else layout[i].temp <= layout[d].temp)
    {}
  }

  /** A cooler field that shows white below a hotter one that shows black, at least one of the two confident. */
  predicate Unphysical(cool: Field, hot: Field, coolTemp: real, hotTemp: real) {
    && !cool.glare && !hot.glare && coolTemp < hotTemp && cool.level == 0 && hot.level == 1
    && (cool.confidence >= 0.85 || hot.confidence >= 0.85)
  }

  /** The field that decides: the first one marked, or the fifth. */
  predicate Decides(layout: seq<Spot>, d: nat) {
    if exists i :: 0 <= i < |layout| && layout[i].decisive
    then d < |layout| && layout[d].decisive && forall i :: 0 <= i < d ==> !layout[i].decisive
    else d == 4
  }

  lemma {:induction false} FirstDecides(layout: seq<Spot>, i: nat)
    requires i <= |layout| && forall k :: 0 <= k < i ==> !layout[k].decisive
    ensures Decides(layout, DecisiveFrom(layout, i))
    decreases |layout| - i
  {
    if i < |layout| && !layout[i].decisive { FirstDecides(layout, i + 1); }
  }

  /**
   * When any reading at all is decided, and as what: usable white balance, no unphysical pair, the decisive field free
   * of glare and confident, and glare only on fields that its verdict settles. The verdict is its level.
   */
  lemma VerdictIff(fields: seq<Field>, layout: seq<Spot>, wbOk: bool, d: nat)
    requires |fields| == |layout| && Decides(layout, d) && d < |fields|
    ensures DecisiveIndex(layout) == d
    ensures var v := HeatVerdict(fields, layout, wbOk);
      && (v.consistent <==> forall i, j :: 0 <= i < |fields| && 0 <= j < |fields| ==>
            !Unphysical(fields[i], fields[j], layout[i].temp, layout[j].temp))
      && (Decided(v.heat) <==>
            && wbOk && v.consistent && !fields[d].glare && fields[d].confidence >= 0.85
            && forall i :: 0 <= i < |fields| && fields[i].glare ==>
              if fields[d].level == 0 then layout[i].temp > layout[d].temp else layout[i].temp <= layout[d].temp)
      && (Decided(v.heat) ==> v.heat == fields[d].level && v.confidence == fields[d].confidence)
      && (!Decided(v.heat) ==> v.heat == 2 && v.levels == [0, 0, 0, 0, 0, 0])
  {
    FirstDecides(layout, 0);
    SameDecides(layout, d, DecisiveIndex(layout));
    ConsistentIff(fields, layout);
    hide DecisiveIndex, Consistent;
    var measured := Measured(fields[d], wbOk && Consistent(fields, layout));
    if Decided(measured) {
      KnownIff(fields, layout, seq(|fields|, i requires 0 <= i < |fields| => fields[i].level), d, measured);
    }
  }

  lemma SameDecides(layout: seq<Spot>, d: nat, e: nat)
    requires Decides(layout, d) && Decides(layout, e)
    ensures d == e
  {}

  lemma ConsistentIff(fields: seq<Field>, layout: seq<Spot>)
    requires |fields| == |layout|
    ensures Consistent(fields, layout) <==> forall i, j :: 0 <= i < |fields| && 0 <= j < |fields| ==>
      !Unphysical(fields[i], fields[j], layout[i].temp, layout[j].temp)
  {
    forall i, j | 0 <= i < |fields| && 0 <= j < |fields|
      ensures Clashes(fields, layout, i, j) <==> Unphysical(fields[i], fields[j], layout[i].temp, layout[j].temp)
    {}
  }

  /** The levels of a decided reading: what is seen, and under glare the verdict. */
  lemma DecidedLevels(fields: seq<Field>, layout: seq<Spot>, wbOk: bool, i: nat)
    requires |fields| == |layout| && DecisiveIndex(layout) < |fields| && i < |fields|
    requires Decided(HeatVerdict(fields, layout, wbOk).heat)
    ensures var v := HeatVerdict(fields, layout, wbOk);
      |v.levels| == |fields| && v.levels[i] == if fields[i].glare then v.heat else fields[i].level
  {
    hide DecisiveIndex, Consistent;
    var levels := Levels(fields, layout, DecisiveIndex(layout), HeatVerdict(fields, layout, wbOk).heat);
    assert levels[i].Some?;
  }

  // ---------- the vote ----------

  function Count(votes: seq<nat>, v: nat): nat { multiset(votes)[v] }

  function Needed(quorum: nat): nat { if quorum < 1 then 1 else quorum }

  /** The first value, in order of appearance, that enough votes agree on. */
  function Winner(votes: seq<nat>, all: seq<nat>, quorum: nat): nat {
    if votes == [] then UNREADABLE else if Count(all, votes[0]) >= Needed(quorum) then votes[0]
        else Winner(votes[1..], all, quorum)
  }

  predicate AllMissing(votes: seq<nat>) { votes != [] && forall v :: v in votes ==> v == MISSING }

  function Majority(votes: seq<nat>, quorum: nat): nat {
    if AllMissing(votes) then MISSING else Winner(votes, votes, quorum)
  }

  lemma {:induction false} WinnerIs(votes: seq<nat>, all: seq<nat>, quorum: nat, v: nat)
    requires Count(all, v) >= Needed(quorum) && v in votes
    requires forall w :: w != v ==> Count(all, w) < Needed(quorum)
    ensures Winner(votes, all, quorum) == v
  {
    if votes[0] != v { WinnerIs(votes[1..], all, quorum, v); }
  }

  lemma {:induction false} NoWinner(votes: seq<nat>, all: seq<nat>, quorum: nat)
    requires forall w :: w in votes ==> Count(all, w) < Needed(quorum)
    ensures Winner(votes, all, quorum) == UNREADABLE
  {
    if votes != [] { NoWinner(votes[1..], all, quorum); }
  }

  /** Two values together never get more votes than there are. */
  lemma {:induction false} CountsFit(votes: seq<nat>, v: nat, w: nat)
    requires v != w
    ensures Count(votes, v) + Count(votes, w) <= |votes|
  {
    if votes != [] {
      CountsFit(votes[1..], v, w);
      assert votes == [votes[0]] + votes[1..];
    }
  }

  /** For any quorum: the first vote that at least one vote and the quorum agree with wins; without one, unreadable. */
  lemma FirstWins(votes: seq<nat>, all: seq<nat>, quorum: nat) returns (i: nat)
    ensures i <= |votes| && forall j :: 0 <= j < i ==> multiset(all)[votes[j]] < 1 || multiset(all)[votes[j]] < quorum
    ensures if i < |votes| then
              multiset(all)[votes[i]] >= 1 && multiset(all)[votes[i]] >= quorum
                  && Winner(votes, all, quorum) == votes[i]
            else Winner(votes, all, quorum) == 2
  {
    i := 0;
    if votes != [] && Count(all, votes[0]) < Needed(quorum) {
      i := FirstWins(votes[1..], all, quorum);
      i := i + 1;
    }
  }

  lemma MajorityFirst(votes: seq<nat>, quorum: nat) returns (i: nat)
    requires exists v :: v in votes && v != 3
    ensures i <= |votes|
    ensures forall j :: 0 <= j < i ==> multiset(votes)[votes[j]] < 1 || multiset(votes)[votes[j]] < quorum
    ensures if i < |votes| then
              multiset(votes)[votes[i]] >= 1 && multiset(votes)[votes[i]] >= quorum
                  && Majority(votes, quorum) == votes[i]
            else Majority(votes, quorum) == 2
  {
    hide Winner;
    i := FirstWins(votes, votes, quorum);
  }

  /** With a quorum of more than half of the votes at most one value wins, whatever the order of the votes. */
  lemma MajorityIs(votes: seq<nat>, quorum: nat, v: nat)
    requires 2 * Needed(quorum) > |votes| && Count(votes, v) >= Needed(quorum)
    ensures Majority(votes, quorum) == v
  {
    if AllMissing(votes) {
      AllMissingCount(votes, v);
    } else {
      assert v in multiset(votes);
      forall w | w != v ensures Count(votes, w) < Needed(quorum) { CountsFit(votes, v, w); }
      WinnerIs(votes, votes, quorum, v);
    }
  }

  lemma AllMissingCount(votes: seq<nat>, v: nat)
    requires AllMissing(votes) && Count(votes, v) >= 1
    ensures v == MISSING
  {
    assert v in multiset(votes);
    assert v in votes;
  }

  lemma MajorityIsNone(votes: seq<nat>, quorum: nat)
    requires forall v :: v in votes ==> Count(votes, v) < Needed(quorum)
    ensures Majority(votes, quorum) == if AllMissing(votes) then MISSING else UNREADABLE
  {
    NoWinner(votes, votes, quorum);
  }

  /** The vote does not depend on the order of the votes. */
  lemma MajorityOrderFree(votes: seq<nat>, other: seq<nat>, quorum: nat)
    requires multiset(votes) == multiset(other) && 2 * Needed(quorum) > |votes|
    ensures Majority(votes, quorum) == Majority(other, quorum)
  {
    assert |votes| == |multiset(votes)| == |multiset(other)| == |other|;
    SameMissing(votes, other);
    if v :| v in votes && Count(votes, v) >= Needed(quorum) {
      MajorityIs(votes, quorum, v);
      MajorityIs(other, quorum, v);
    } else {
      forall v | v in other ensures Count(other, v) < Needed(quorum) {
        assert v in multiset(other);
        assert v in votes;
      }
      MajorityIsNone(votes, quorum);
      MajorityIsNone(other, quorum);
    }
  }

  lemma SameMissing(votes: seq<nat>, other: seq<nat>)
    requires multiset(votes) == multiset(other)
    ensures AllMissing(votes) <==> AllMissing(other)
  {
    forall v ensures v in votes <==> v in other { assert v in multiset(votes) <==> v in multiset(other); }
    assert |votes| == |multiset(votes)| == |multiset(other)| == |other|;
  }

  /** A value that appeared before decides nothing when it appears again. */
  lemma {:induction false} SeenAgain(keys: seq<nat>, v: nat, rest: seq<nat>, all: seq<nat>, quorum: nat)
    requires v in keys
    ensures Winner(keys + ([v] + rest), all, quorum) == Winner(keys + rest, all, quorum)
  {
    hide Count;
    assert (keys + ([v] + rest))[1..] == keys[1..] + ([v] + rest) && (keys + rest)[1..] == keys[1..] + rest;
    if Count(all, keys[0]) < Needed(quorum) {
      if v in keys[1..] {
        SeenAgain(keys[1..], v, rest, all, quorum);
      } else {
        LoserAdds(keys[1..], v, rest, all, quorum);
      }
    }
  }

  /** A value without enough votes decides nothing. */
  lemma {:induction false} LoserAdds(keys: seq<nat>, v: nat, rest: seq<nat>, all: seq<nat>, quorum: nat)
    requires Count(all, v) < Needed(quorum)
    ensures Winner(keys + ([v] + rest), all, quorum) == Winner(keys + rest, all, quorum)
  {
    hide Count;
    if keys == [] {
      assert [] + ([v] + rest) == [v] + rest && ([v] + rest)[1..] == rest && [] + rest == rest;
    } else {
      assert (keys + ([v] + rest))[1..] == keys[1..] + ([v] + rest) && (keys + rest)[1..] == keys[1..] + rest;
      LoserAdds(keys[1..], v, rest, all, quorum);
    }
  }

  /** majority; a JavaScript Map keeps its keys in order of appearance. */
  method MajorityVote(votes: seq<nat>, quorum: nat) returns (winner: nat)
    ensures winner == Majority(votes, quorum)
  {
    hide Winner, Count;
    if votes != [] && forall v :: v in votes ==> v == MISSING { return MISSING; }
    var counts, keys := CountVotes(votes, quorum);
    for k := 0 to |keys|
      invariant Winner(votes, votes, quorum) == Winner(keys[k..], votes, quorum)
    {
      NextKey(keys, k, votes, quorum);
      if counts[keys[k]] >= Needed(quorum) { return keys[k]; }
    }
    assert keys[|keys|..] == [];
    NoKeys(votes, quorum);
    winner := UNREADABLE;
  }

  lemma NextKey(keys: seq<nat>, k: nat, all: seq<nat>, quorum: nat)
    requires k < |keys|
    ensures Winner(keys[k..], all, quorum) == if Count(all, keys[k]) >= Needed(quorum) then keys[k]
        else Winner(keys[k + 1..], all, quorum)
  {
    hide Count;
    assert keys[k..][1..] == keys[k + 1..];
  }

  lemma NoKeys(all: seq<nat>, quorum: nat)
    ensures Winner([], all, quorum) == UNREADABLE
  {}

  method CountVotes(votes: seq<nat>, ghost quorum: nat) returns (counts: map<nat, nat>, keys: seq<nat>)
    ensures forall v :: v in keys ==> v in counts && counts[v] == Count(votes, v)
    ensures Winner(votes, votes, quorum) == Winner(keys, votes, quorum)
  {
    hide Winner, Count;
    counts, keys := map[], [];
    NoVotes();
    assert [] + votes[0..] == votes;
    for i := 0 to |votes|
      invariant forall v :: v in keys <==> v in counts
      invariant forall v :: v in counts ==> counts[v] == Count(votes[..i], v)
      invariant forall v :: v !in counts ==> Count(votes[..i], v) == 0
      invariant Winner(votes, votes, quorum) == Winner(keys + votes[i..], votes, quorum)
    {
      var v := votes[i];
      CountNext(votes, i);
      assert votes[i..] == [v] + votes[i + 1..];
      if v in counts {
        SeenAgain(keys, v, votes[i + 1..], votes, quorum);
      } else {
        assert keys + ([v] + votes[i + 1..]) == keys + [v] + votes[i + 1..];
        keys := keys + [v];
      }
      counts := counts[v := (if v in counts then counts[v] else 0) + 1];
    }
    assert votes[..0] == [] && votes[..|votes|] == votes && keys + votes[|votes|..] == keys;
  }

  lemma NoVotes()
    ensures forall v :: Count([], v) == 0
  {}

  lemma CountNext(votes: seq<nat>, i: nat)
    requires i < |votes|
    ensures forall v :: Count(votes[..i + 1], v) == Count(votes[..i], v) + if v == votes[i] then 1 else 0
  {
    assert votes[..i + 1] == votes[..i] + [votes[i]];
  }

  // ---------- several frames ----------

  /** What a frame says: whether and how the card was found, its verdicts and its heat levels. */
  datatype Frame = Frame(found: bool, frameMode: bool, anchored: bool, heat: nat, humidity: nat, uv: nat,
      levels: seq<nat>)

  /** frameCounts: the card was found and, in frame mode, anchored on its heat label. */
  predicate Counts(f: Frame) { f.found && (!f.frameMode || f.anchored) }

  function Voters(frames: seq<Frame>): seq<Frame> {
    if frames == [] then [] else if Counts(frames[0]) then [frames[0]] + Voters(frames[1..]) else Voters(frames[1..])
  }

  datatype Pick = Heat | Humidity | Uv

  function Said(f: Frame, p: Pick): nat { match p case Heat => f.heat case Humidity => f.humidity case Uv => f.uv }

  function Votes(frames: seq<Frame>, p: Pick): seq<nat> {
    if frames == [] then [] else [Said(frames[0], p)] + Votes(frames[1..], p)
  }

  /** How many frames have the property. */
  function Tally(frames: seq<Frame>, p: Frame -> bool): nat {
    if frames == [] then 0 else (if p(frames[0]) then 1 else 0) + Tally(frames[1..], p)
  }

  function Says(p: Pick, v: nat): Frame -> bool { (f: Frame) => Said(f, p) == v }

  function Triggers(heat: nat, i: nat): Frame -> bool { (f: Frame) => f.heat == heat && LevelAt(f, i) == 1 }

  /** Frames with this heat verdict, and those among them that report field `i` as triggered. */
  function Agreeing(frames: seq<Frame>, heat: nat): nat { Tally(frames, Says(Heat, heat)) }

  function Black(frames: seq<Frame>, heat: nat, i: nat): nat
    requires i < 6
  {
    Tally(frames, Triggers(heat, i))
  }

  function LevelAt(f: Frame, i: nat): nat { if i < |f.levels| then f.levels[i] else 0 }

  datatype Combined = Combined(found: bool, heat: nat, humidity: nat, uv: nat, levels: seq<nat>)

  /** More than half of the frames captured, whether they took part or not. */
  function Quorum(frames: seq<Frame>, total: nat): nat { (if total > |frames| then total else |frames|) / 2 + 1 }

  function CombinedLevel(voters: seq<Frame>, heat: nat, i: nat): nat
    requires i < 6
  {
    if i == HEAT_DECISIVE_INDEX then if heat == TRIGGERED then 1 else 0
    else if 2 * Black(voters, heat, i) > Agreeing(voters, heat) then 1 else 0
  }

  const NO_LEVELS: seq<nat> := [0, 0, 0, 0, 0, 0]

  function CombinedLevels(voters: seq<Frame>, heat: nat): seq<nat> {
    if Decided(heat) then seq(6, i requires 0 <= i < 6 => CombinedLevel(voters, heat, i)) else NO_LEVELS
  }

  function Vote(frames: seq<Frame>, total: nat, p: Pick): nat {
    Majority(Votes(Voters(frames), p), Quorum(frames, total))
  }

  /** combineReadings, as far as verdicts and heat levels go. */
  function Combine(frames: seq<Frame>, total: nat): Combined {
    if Voters(frames) == [] then Combined(false, MISSING, MISSING, MISSING, NO_LEVELS)
    else
      var heat := Vote(frames, total, Heat);
      Combined(true, heat, Vote(frames, total, Humidity), Vote(frames, total, Uv), CombinedLevels(Voters(frames), heat))
  }

  method CombineReadings(frames: seq<Frame>, total: nat) returns (r: Combined)
    ensures r == Combine(frames, total)
  {
    var voters := Voters(frames);
    if voters == [] { return Combined(false, MISSING, MISSING, MISSING, NO_LEVELS); }
    var quorum := Quorum(frames, total);
    var heat := MajorityVote(Votes(voters, Heat), quorum);
    var humidity := MajorityVote(Votes(voters, Humidity), quorum);
    var uv := MajorityVote(Votes(voters, Uv), quorum);
    var levels := NO_LEVELS;
    if Decided(heat) {
      levels := seq(6, i requires 0 <= i < 6 => if Black(voters, heat, i) * 2 > Agreeing(voters, heat) then 1 else 0);
      levels := levels[HEAT_DECISIVE_INDEX := if heat == TRIGGERED then 1 else 0];
    }
    assert levels == CombinedLevels(voters, heat);
    r := Combined(true, heat, humidity, uv, levels);
  }

  // ---------- counting ----------

  lemma {:induction false} TallyAppend(a: seq<Frame>, b: seq<Frame>, p: Frame -> bool)
    ensures Tally(a + b, p) == Tally(a, p) + Tally(b, p)
  {
    if a == [] {
      assert a + b == b;
    } else {
      assert (a + b)[1..] == a[1..] + b;
      TallyAppend(a[1..], b, p);
    }
  }

  lemma TakeOut(frames: seq<Frame>, j: nat, p: Frame -> bool)
    requires j < |frames|
    ensures Tally(frames, p) == (if p(frames[j]) then 1 else 0) + Tally(frames[..j] + frames[j + 1..], p)
    ensures multiset(frames) == multiset{frames[j]} + multiset(frames[..j] + frames[j + 1..])
  {
    assert frames == frames[..j] + frames[j..];
    TallyAppend(frames[..j], frames[j..], p);
    TallyAppend(frames[..j], frames[j + 1..], p);
    assert frames[j..] == [frames[j]] + frames[j + 1..];
  }

  /** A count does not depend on the order of the frames. */
  lemma {:induction false} TallyOrderFree(frames: seq<Frame>, other: seq<Frame>, p: Frame -> bool)
    requires multiset(frames) == multiset(other)
    ensures Tally(frames, p) == Tally(other, p)
  {
    if frames == [] {
      assert |other| == |multiset(other)|;
    } else {
      var f := frames[0];
      assert f in multiset(frames);
      assert f in other;
      var j :| 0 <= j < |other| && other[j] == f;
      TakeOut(other, j, p);
      SameRest(frames, other[..j] + other[j + 1..]);
      TallyOrderFree(frames[1..], other[..j] + other[j + 1..], p);
    }
  }

  lemma SameRest(frames: seq<Frame>, rest: seq<Frame>)
    requires frames != [] && multiset(frames) == multiset{frames[0]} + multiset(rest)
    ensures multiset(frames[1..]) == multiset(rest)
  {
    assert frames == [frames[0]] + frames[1..];
    assert multiset(frames) == multiset{frames[0]} + multiset(frames[1..]);
    assert multiset(frames[1..]) == multiset(frames) - multiset{frames[0]};
    assert multiset(rest) == multiset(frames) - multiset{frames[0]};
  }

  lemma {:induction false} TallyGrows(frames: seq<Frame>, p: Frame -> bool, q: Frame -> bool)
    requires forall f :: f in frames && p(f) ==> q(f)
    ensures Tally(frames, p) <= Tally(frames, q)
  {
    if frames != [] { TallyGrows(frames[1..], p, q); }
  }

  lemma {:induction false} TallyNone(frames: seq<Frame>, p: Frame -> bool)
    requires forall f :: f in frames ==> !p(f)
    ensures Tally(frames, p) == 0
  {
    if frames != [] { TallyNone(frames[1..], p); }
  }

  /** The voters are exactly the frames that count, each as often as it was given. */
  lemma {:induction false} VotersAre(frames: seq<Frame>)
    ensures |Voters(frames)| <= |frames|
    ensures forall f :: multiset(Voters(frames))[f] == if Counts(f) then multiset(frames)[f] else 0
  {
    if frames != [] {
      VotersAre(frames[1..]);
      assert frames == [frames[0]] + frames[1..];
    }
  }

  lemma VoterCounts(frames: seq<Frame>, f: Frame)
    requires f in Voters(frames)
    ensures f in frames && Counts(f)
  {
    VotersAre(frames);
    assert f in multiset(Voters(frames));
    assert f in multiset(frames);
  }

  lemma {:induction false} VotesAre(frames: seq<Frame>, p: Pick, v: nat)
    ensures |Votes(frames, p)| == |frames|
    ensures Count(Votes(frames, p), v) == Tally(frames, Says(p, v))
  {
    if frames != [] {
      VotesAre(frames[1..], p, v);
      CountFirst(Said(frames[0], p), Votes(frames[1..], p), v);
    }
  }

  lemma CountFirst(x: nat, rest: seq<nat>, v: nat)
    ensures Count([x] + rest, v) == (if x == v then 1 else 0) + Count(rest, v)
  {}

  // ---------- the combined reading ----------

  /** The quorum is more than half of the votes cast. */
  lemma QuorumIsMost(frames: seq<Frame>, total: nat, p: Pick)
    ensures 2 * Needed(Quorum(frames, total)) > |Votes(Voters(frames), p)| && Quorum(frames, total) >= 1
  {
    VotersAre(frames);
    VotesAre(Voters(frames), p, 0);
  }

  lemma {:induction false} TallyVoters(frames: seq<Frame>, p: Pick, v: nat)
    ensures Tally(Voters(frames), Says(p, v))
        == Tally(frames, (f: Frame) => f.found && (!f.frameMode || f.anchored) && Said(f, p) == v)
  {
    if frames != [] { TallyVoters(frames[1..], p, v); }
  }

  /** The frames that take part and say `v`. */
  function For(frames: seq<Frame>, p: Pick, v: nat): nat {
    Tally(frames, (f: Frame) => f.found && (!f.frameMode || f.anchored) && Said(f, p) == v)
  }

  function Captured(frames: seq<Frame>, total: nat): nat { if total < |frames| then |frames| else total }

  /** What more than half of the frames captured say wins. */
  lemma VoteWins(frames: seq<Frame>, total: nat, p: Pick, v: nat)
    requires 2 * For(frames, p, v) > Captured(frames, total)
    ensures Vote(frames, total, p) == v
  {
    QuorumIsMost(frames, total, p);
    VotesAre(Voters(frames), p, v);
    TallyVoters(frames, p, v);
    MajorityIs(Votes(Voters(frames), p), Quorum(frames, total), v);
  }

  /** An indicator that every frame taking part reports as missing is missing. */
  lemma VoteMissing(frames: seq<Frame>, total: nat, p: Pick, f: Frame)
    requires f in frames && Counts(f) && forall g :: g in frames && Counts(g) ==> Said(g, p) == 3
    ensures Vote(frames, total, p) == 3
  {
    VotedIff(frames, p);
    var votes := Votes(Voters(frames), p);
    assert Said(f, p) in votes;
  }

  /** Otherwise, without such a majority, it is unreadable. */
  lemma VoteSplit(frames: seq<Frame>, total: nat, p: Pick, f: Frame)
    requires f in frames && Counts(f) && Said(f, p) != 3
    requires forall w :: 2 * For(frames, p, w) <= Captured(frames, total)
    ensures Vote(frames, total, p) == 2
  {
    VotedIff(frames, p);
    var votes, q := Votes(Voters(frames), p), Quorum(frames, total);
    assert Said(f, p) in votes;
    forall w ensures Count(votes, w) < Needed(q) {
      VotesAre(Voters(frames), p, w);
      TallyVoters(frames, p, w);
      assert 2 * For(frames, p, w) <= Captured(frames, total);
    }
    MajorityIsNone(votes, q);
  }

  /** The votes are what the frames that count said. */
  lemma {:induction false} VotedIff(frames: seq<Frame>, p: Pick)
    ensures forall v :: v in Votes(Voters(frames), p) <==> exists f :: f in frames && Counts(f) && Said(f, p) == v
  {
    if frames != [] {
      VotedIff(frames[1..], p);
      assert frames == [frames[0]] + frames[1..];
      var voters := Voters(frames);
      if Counts(frames[0]) { assert voters[0] == frames[0] && voters[1..] == Voters(frames[1..]); }
    }
  }

  /** An indicator is decided as `v` if and only if more than half of all frames captured voted for `v`. */
  lemma VoteIff(frames: seq<Frame>, total: nat, p: Pick, v: nat)
    requires v != UNREADABLE && v != MISSING
    ensures Vote(frames, total, p) == v <==> Tally(Voters(frames), Says(p, v)) >= Quorum(frames, total)
  {
    var votes, q := Votes(Voters(frames), p), Quorum(frames, total);
    QuorumIsMost(frames, total, p);
    VotesAre(Voters(frames), p, v);
    if Count(votes, v) >= q {
      MajorityIs(votes, q, v);
    } else if w :| w in votes && Count(votes, w) >= q {
      MajorityIs(votes, q, w);
    } else {
      MajorityIsNone(votes, q);
    }
  }

  /** The combined reading does not depend on the order of the frames. */
  lemma CombineOrderFree(frames: seq<Frame>, other: seq<Frame>, total: nat)
    requires multiset(frames) == multiset(other)
    ensures Combine(frames, total) == Combine(other, total)
  {
    hide Voters, Votes, Majority, Tally, Decided, CombinedLevels;
    SameVoters(frames, other);
    forall p ensures Vote(frames, total, p) == Vote(other, total, p) { VoteOrderFree(frames, other, total, p); }
    SameLevels(Voters(frames), Voters(other), Vote(frames, total, Heat));
  }

  lemma SameSize(a: seq<Frame>, b: seq<Frame>)
    requires multiset(a) == multiset(b)
    ensures |a| == |b|
  {
    assert |multiset(a)| == |multiset(b)|;
  }

  lemma SameVoters(frames: seq<Frame>, other: seq<Frame>)
    requires multiset(frames) == multiset(other)
    ensures |frames| == |other| && multiset(Voters(frames)) == multiset(Voters(other))
    ensures Voters(frames) == [] <==> Voters(other) == []
  {
    hide Voters;
    VotersAre(frames);
    VotersAre(other);
    forall f ensures multiset(Voters(frames))[f] == multiset(Voters(other))[f] {}
    assert multiset(Voters(frames)) == multiset(Voters(other));
    SameSize(frames, other);
    SameSize(Voters(frames), Voters(other));
  }

  lemma VoteOrderFree(frames: seq<Frame>, other: seq<Frame>, total: nat, p: Pick)
    requires multiset(frames) == multiset(other)
    ensures Vote(frames, total, p) == Vote(other, total, p)
  {
    hide Voters, Votes, Majority, Tally;
    SameVoters(frames, other);
    QuorumIsMost(frames, total, p);
    var mine, theirs := Votes(Voters(frames), p), Votes(Voters(other), p);
    forall v ensures multiset(mine)[v] == multiset(theirs)[v] {
      VotesAre(Voters(frames), p, v);
      VotesAre(Voters(other), p, v);
      TallyOrderFree(Voters(frames), Voters(other), Says(p, v));
    }
    assert multiset(mine) == multiset(theirs);
    MajorityOrderFree(mine, theirs, Quorum(frames, total));
  }

  lemma SameLevels(voters: seq<Frame>, other: seq<Frame>, heat: nat)
    requires multiset(voters) == multiset(other)
    ensures CombinedLevels(voters, heat) == CombinedLevels(other, heat)
  {
    hide Tally;
    TallyOrderFree(voters, other, Says(Heat, heat));
    forall i: nat | i < 6 ensures CombinedLevel(voters, heat, i) == CombinedLevel(other, heat, i) {
      TallyOrderFree(voters, other, Triggers(heat, i));
    }
  }

  predicate Falling(levels: seq<nat>) {
    && |levels| == 6
    && (forall i :: 0 <= i < 6 ==> levels[i] <= 1)
    && (forall i, j :: 0 <= i < j < 6 ==> levels[j] <= levels[i])
  }

  /** What a decided frame reports: levels that fall with the temperature, and field 4 equal to its verdict. */
  predicate Physics(f: Frame) {
    Counts(f) && Decided(f.heat) ==>
        Falling(f.levels) && f.levels[HEAT_DECISIVE_INDEX] == (if f.heat == TRIGGERED then 1 else 0)
  }

  /**
   * The combined levels always have six fields, the 40 degree field equal to the verdict, and zeros without a decided
   * verdict; when the frames respect the strip's physics, so does their combination.
   */
  lemma CombinedPhysics(frames: seq<Frame>, total: nat)
    ensures var r := Combine(frames, total);
      && |r.levels| == 6
      && (r.levels[HEAT_DECISIVE_INDEX] == 1 <==> r.heat == TRIGGERED)
      && (!Decided(r.heat) ==> r.levels == NO_LEVELS)
      && ((forall f :: f in frames ==> Physics(f)) ==> Falling(r.levels))
  {
    var r, voters := Combine(frames, total), Voters(frames);
    if voters != [] && Decided(r.heat) && forall f :: f in frames ==> Physics(f) {
      forall f | f in voters ensures Physics(f) && Counts(f) { VoterCounts(frames, f); }
      VoteIff(frames, total, Heat, r.heat);
      forall i: nat, j: nat | i < j < 6 ensures r.levels[j] <= r.levels[i] {
        LevelByCount(voters, r.heat, i);
        LevelByCount(voters, r.heat, j);
        TallyGrows(voters, Triggers(r.heat, j), Triggers(r.heat, i));
      }
    }
  }

  /** Overwriting field 4 changes nothing: the agreeing frames all report the verdict there. */
  lemma LevelByCount(voters: seq<Frame>, heat: nat, i: nat)
    requires i < 6 && Decided(heat) && Agreeing(voters, heat) >= 1
    requires forall f :: f in voters ==> Counts(f) && Physics(f)
    ensures CombinedLevel(voters, heat, i) == if 2 * Black(voters, heat, i) > Agreeing(voters, heat) then 1 else 0
  {
    if i == HEAT_DECISIVE_INDEX {
      if heat == TRIGGERED {
        TallyGrows(voters, Says(Heat, heat), Triggers(heat, i));
      } else {
        TallyNone(voters, Triggers(heat, i));
      }
    }
  }

  function Reported(r: Combined, p: Pick): nat {
    match p case Heat => r.heat case Humidity => r.humidity case Uv => r.uv
  }

  /**
   * A reading is found exactly when some frame takes part; then each indicator is its vote, and otherwise all are
   * missing.
   */
  lemma CombinedIff(frames: seq<Frame>, total: nat, p: Pick)
    ensures var r := Combine(frames, total);
      && (r.found <==> exists f :: f in frames && f.found && (!f.frameMode || f.anchored))
      && Reported(r, p) == (if r.found then Vote(frames, total, p) else 3)
      && (!r.found ==> r.levels == [0, 0, 0, 0, 0, 0])
  {
    hide Vote, CombinedLevels, Voters;
    if Voters(frames) != [] { VoterCounts(frames, Voters(frames)[0]); }
    forall f | f in frames && Counts(f) ensures f in Voters(frames) {
      VotersAre(frames);
      assert multiset(Voters(frames))[f] == multiset(frames)[f];
    }
  }

  /** Below the decided verdict, a level is set exactly when more than half of the agreeing voters report it. */
  lemma LevelIff(frames: seq<Frame>, total: nat, i: nat)
    requires i < 6 && i != 4 && Decided(Combine(frames, total).heat)
    ensures var r := Combine(frames, total);
      |r.levels| == 6 && r.levels[i] in {0, 1}
      && (r.levels[i] == 1 <==>
            2 * Tally(Voters(frames), (f: Frame) => f.heat == r.heat && i < |f.levels| && f.levels[i] == 1)
            > Tally(Voters(frames), (f: Frame) => f.heat == r.heat))
  {
    var r, voters := Combine(frames, total), Voters(frames);
    TallySame(voters, Says(Heat, r.heat), (f: Frame) => f.heat == r.heat);
    TallySame(voters, Triggers(r.heat, i), (f: Frame) => f.heat == r.heat && i < |f.levels| && f.levels[i] == 1);
  }

  lemma TallySame(frames: seq<Frame>, p: Frame -> bool, q: Frame -> bool)
    requires forall f :: p(f) == q(f)
    ensures Tally(frames, p) == Tally(frames, q)
  {
    TallyGrows(frames, p, q);
    TallyGrows(frames, q, p);
  }

  /** When every decided frame reports the truth (see DecidedIsTrue), so does a decided combined reading. */
  lemma CombinedIsTrue(frames: seq<Frame>, total: nat, truth: seq<level>)
    requires |truth| == 6
    requires forall f :: f in frames && Counts(f) && Decided(f.heat) ==>
        f.levels == truth && f.heat == truth[HEAT_DECISIVE_INDEX]
    ensures var r := Combine(frames, total);
      Decided(r.heat) ==> r.levels == truth && r.heat == truth[HEAT_DECISIVE_INDEX]
  {
    var r, voters := Combine(frames, total), Voters(frames);
    if Decided(r.heat) {
      forall f | f in voters ensures f in frames && Counts(f) { VoterCounts(frames, f); }
      VoteIff(frames, total, Heat, r.heat);
      if r.heat != truth[HEAT_DECISIVE_INDEX] { TallyNone(voters, Says(Heat, r.heat)); }
      forall i: nat | i < 6 ensures CombinedLevel(voters, r.heat, i) == truth[i] {
        if truth[i] == 1 {
          TallyGrows(voters, Says(Heat, r.heat), Triggers(r.heat, i));
        } else {
          TallyNone(voters, Triggers(r.heat, i));
        }
      }
    }
  }
}
