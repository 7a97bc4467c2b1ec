/** Choosing one public address from the answers of several resolvers
    (backend/pkg/dns/address.go). */
module Consensus {
  import opened Common

  // The answers of the resolvers that answered, in order.
  function Answers(responses: seq<Option<string>>): seq<string> {
    if responses == [] then []
    else
      var front := Answers(responses[..|responses| - 1]);
      match responses[|responses| - 1]
      case Some(a) => front + [a]
      case None => front
  }

  // How many of the responses are answers.
  function Answered(responses: seq<Option<string>>): (n: nat)
    ensures n + multiset(responses)[None] == |responses|
  {
    assert multiset(responses)[None] <= |multiset(responses)|;
    |responses| - multiset(responses)[None]
  }

  /** No answer is lost and none is counted twice. */
  lemma {:induction false} AnswersAreCounted(responses: seq<Option<string>>)
    ensures forall a :: multiset(Answers(responses))[a] == multiset(responses)[Some(a)]
    ensures |Answers(responses)| == Answered(responses)
  {
    if responses != [] {
      var front, last := responses[..|responses| - 1], responses[|responses| - 1];
      AnswersAreCounted(front);
      assert responses == front + [last];
    }
  }

  /** The answers stand in the order of the responses: at is where they come from. */
  lemma {:induction false} AnswersInOrder(responses: seq<Option<string>>) returns (at: seq<nat>)
    ensures |at| == |Answers(responses)|
    ensures forall i :: 0 <= i < |at| ==> at[i] < |responses| && responses[at[i]] == Some(Answers(responses)[i])
    ensures forall i, j :: 0 <= i < j < |at| ==> at[i] < at[j]
  {
    at := [];
    if responses != [] {
      at := AnswersInOrder(responses[..|responses| - 1]);
      if responses[|responses| - 1].Some? {
        at := at + [|responses| - 1];
      }
    }
  }

  function Count(answers: seq<string>, a: string): nat {
    multiset(answers)[a]
  }

  // Where a is first seen; the length when it is not.
  function FirstAt(answers: seq<string>, a: string): (i: nat)
    ensures i <= |answers| && (i < |answers| ==> answers[i] == a)
  {
    if answers == [] then 0
    else
      var i := FirstAt(answers[..|answers| - 1], a);
      if i < |answers| - 1 || answers[i] == a then i else |answers|
  }

  /** a is the answer of greatest multiplicity, and among those the one seen first. */
  ghost predicate IsWinner(answers: seq<string>, a: string) {
    a in answers
    && forall b :: b in answers && b != a ==>
         Count(answers, b) < Count(answers, a)
         || (Count(answers, b) == Count(answers, a) && FirstAt(answers, a) < FirstAt(answers, b))
  }

  // The first answer a comes before any answer b.
  ghost predicate ComesFirst(responses: seq<Option<string>>, a: string, b: string) {
    exists i :: 0 <= i < |responses| && responses[i] == Some(a) && forall j :: 0 <= j < i ==> responses[j] != Some(b)
  }

  /** The same, said of the responses: of all addresses a was answered most often, and first among those
      that were answered as often. */
  ghost predicate Wins(responses: seq<Option<string>>, a: string) {
    Some(a) in responses
    && forall b :: Some(b) in responses && b != a ==>
         multiset(responses)[Some(b)] < multiset(responses)[Some(a)]
         || (multiset(responses)[Some(b)] == multiset(responses)[Some(a)] && ComesFirst(responses, a, b))
  }

  lemma ComesFirstNext(front: seq<Option<string>>, last: Option<string>, a: string, b: string)
    requires a != b
    ensures ComesFirst(front + [last], a, b) <==> ComesFirst(front, a, b) || (last == Some(a) && Some(b) !in front)
  {
    var all := front + [last];
    if ComesFirst(all, a, b) {
      var i :| 0 <= i < |all| && all[i] == Some(a) && forall j :: 0 <= j < i ==> all[j] != Some(b);
      if i < |front| {
        assert front[i] == Some(a) && forall j :: 0 <= j < i ==> front[j] == all[j];
      } else {
        assert forall j :: 0 <= j < |front| ==> front[j] == all[j];
      }
    }
    if ComesFirst(front, a, b) {
      var i :| 0 <= i < |front| && front[i] == Some(a) && forall j :: 0 <= j < i ==> front[j] != Some(b);
      assert all[i] == Some(a) && forall j :: 0 <= j < i ==> all[j] == front[j];
    }
    if last == Some(a) && Some(b) !in front {
      assert all[|front|] == Some(a) && forall j :: 0 <= j < |front| ==> all[j] == front[j];
    }
  }

  lemma {:induction false} FirstIffComesFirst(responses: seq<Option<string>>, a: string, b: string)
    requires a != b
    ensures FirstAt(Answers(responses), a) < FirstAt(Answers(responses), b) <==> ComesFirst(responses, a, b)
  {
    if responses != [] {
      var front, last := responses[..|responses| - 1], responses[|responses| - 1];
      FirstIffComesFirst(front, a, b);
      assert front + [last] == responses;
      ComesFirstNext(front, last, a, b);
      AnsweredIff(front, b);
      if last.Some? {
        FirstAtOneMore(Answers(front), last.value, a);
        FirstAtOneMore(Answers(front), last.value, b);
      }
    }
  }

  lemma FirstAtOneMore(answers: seq<string>, x: string, a: string)
    ensures FirstAt(answers + [x], a)
         == if FirstAt(answers, a) < |answers| || x == a then FirstAt(answers, a) else |answers| + 1
  {
    assert (answers + [x])[..|answers|] == answers;
  }

  lemma AnsweredIff(responses: seq<Option<string>>, a: string)
    ensures Some(a) in responses <==> a in Answers(responses)
    ensures a in Answers(responses) <==> FirstAt(Answers(responses), a) < |Answers(responses)|
  {
    AnswersAreCounted(responses);
    assert a in Answers(responses) <==> a in multiset(Answers(responses));
    assert Some(a) in responses <==> Some(a) in multiset(responses);
    FirstAtSeen(Answers(responses), a);
  }

  lemma WinnerIffWins(responses: seq<Option<string>>, a: string)
    ensures IsWinner(Answers(responses), a) <==> Wins(responses, a)
  {
    AnswersAreCounted(responses);
    forall b
      ensures Some(b) in responses <==> b in Answers(responses)
      ensures b != a ==>
                (FirstAt(Answers(responses), a) < FirstAt(Answers(responses), b) <==> ComesFirst(responses, a, b))
    {
      AnsweredIff(responses, b);
      if b != a {
        FirstIffComesFirst(responses, a, b);
      }
    }
  }

  // No other answer is given as often.
  ghost predicate IsClear(answers: seq<string>, a: string) {
    a in answers && forall b :: b in answers && b != a ==> Count(answers, b) < Count(answers, a)
  }

  lemma WinnerIsUnique(answers: seq<string>, a: string, b: string)
    requires IsWinner(answers, a) && IsWinner(answers, b)
    ensures a == b
  {
  }

  lemma {:induction false} FirstAtIsFirst(answers: seq<string>, a: string)
    ensures forall j :: 0 <= j < FirstAt(answers, a) ==> answers[j] != a
  {
    if answers != [] {
      FirstAtIsFirst(answers[..|answers| - 1], a);
    }
  }

  lemma FirstAtSeen(answers: seq<string>, a: string)
    ensures a in answers <==> FirstAt(answers, a) < |answers|
  {
    FirstAtIsFirst(answers, a);
  }

  lemma {:induction false} CountIsBounded(answers: seq<string>, a: string)
    ensures Count(answers, a) <= |answers|
    ensures a in answers <==> Count(answers, a) > 0
  {
    if answers != [] {
      CountIsBounded(answers[1..], a);
      assert answers == [answers[0]] + answers[1..];
    }
  }

  // ----- counts

  ghost function Sum(counts: map<string, nat>): nat {
    if counts == map[] then 0
    else
      var k :| k in counts;
      counts[k] + Sum(counts - {k})
  }

  lemma {:induction false} SumWithout(counts: map<string, nat>, k: string)
    requires k in counts
    ensures Sum(counts) == counts[k] + Sum(counts - {k})
    decreases |counts|
  {
    var first :| first in counts && Sum(counts) == counts[first] + Sum(counts - {first});
    if first != k {
      SumWithout(counts - {first}, k);
      SumWithout(counts - {k}, first);
      assert counts - {first} - {k} == counts - {k} - {first};
    }
  }

  lemma SumOfUpdate(counts: map<string, nat>, k: string, v: nat)
    ensures Sum(counts[k := v]) == Sum(counts - {k}) + v
  {
    SumWithout(counts[k := v], k);
    assert counts[k := v] - {k} == counts - {k};
  }

  /** The two maps describe the answers: how often each came, and when first. */
  ghost predicate Tallied(answers: seq<string>, counts: map<string, nat>, firstSeen: map<string, nat>) {
    && counts.Keys == firstSeen.Keys == (set a | a in answers)
    && Sum(counts) == |answers|
    && (forall a :: a in counts ==> counts[a] == Count(answers, a) && firstSeen[a] == FirstAt(answers, a))
  }

  lemma FirstAtAppended(answers: seq<string>, addr: string, a: string)
    requires a in answers || a == addr
    ensures FirstAt(answers + [addr], a) == FirstAt(answers, a)
  {
    assert (answers + [addr])[..|answers|] == answers;
    FirstAtSeen(answers, a);
  }

  lemma TallyOne(answers: seq<string>, counts: map<string, nat>, firstSeen: map<string, nat>, addr: string)
    requires Tallied(answers, counts, firstSeen)
    ensures Tallied(answers + [addr],
                    counts[addr := (if addr in counts then counts[addr] else 0) + 1],
                    if addr in firstSeen then firstSeen else firstSeen[addr := |answers|])
  {
    var more := answers + [addr];
    var countsAfter := counts[addr := (if addr in counts then counts[addr] else 0) + 1];
    var firstAfter := if addr in firstSeen then firstSeen else firstSeen[addr := |answers|];
    CountedSum(counts, addr);
    assert countsAfter.Keys == firstAfter.Keys == (set a | a in more);
    forall a | a in countsAfter
      ensures countsAfter[a] == Count(more, a) && firstAfter[a] == FirstAt(more, a)
    {
      CountIsBounded(answers, a);
      FirstAtAppended(answers, addr, a);
      FirstAtSeen(answers, a);
    }
  }

  lemma CountedSum(counts: map<string, nat>, addr: string)
    ensures Sum(counts[addr := (if addr in counts then counts[addr] else 0) + 1]) == Sum(counts) + 1
  {
    SumOfUpdate(counts, addr, (if addr in counts then counts[addr] else 0) + 1);
    if addr in counts {
      SumWithout(counts, addr);
    } else {
      assert counts - {addr} == counts;
    }
  }

  /** The counting loop. */
  method Tally(responses: seq<Option<string>>)
    returns (counts: map<string, nat>, firstSeen: map<string, nat>, successful: nat)
    ensures Tallied(Answers(responses), counts, firstSeen) && successful == |Answers(responses)|
    ensures forall a :: a in counts <==> Some(a) in responses
    ensures forall a :: a in counts ==> counts[a] == multiset(responses)[Some(a)]
    ensures successful + multiset(responses)[None] == |responses|
  {
    counts, firstSeen, successful := map[], map[], 0;
    var i := 0;
    while i < |responses|
      invariant i <= |responses|
      invariant Tallied(Answers(responses[..i]), counts, firstSeen)
      invariant successful == |Answers(responses[..i])|
    {
      assert responses[..i + 1][..i] == responses[..i];
      if responses[i].Some? {
        var addr := responses[i].value;
        TallyOne(Answers(responses[..i]), counts, firstSeen, addr);
        if addr !in firstSeen {
          firstSeen := firstSeen[addr := successful];
        }
        counts := counts[addr := (if addr in counts then counts[addr] else 0) + 1];
        successful := successful + 1;
      }
      i := i + 1;
    }
    assert responses[..i] == responses;
    AnswersAreCounted(responses);
    forall a
      ensures Some(a) in responses <==> a in Answers(responses)
    {
      AnsweredIff(responses, a);
    }
  }

  /** Every answer is counted, and no two addresses were first seen together. */
  lemma TallyIsFaithful(answers: seq<string>, counts: map<string, nat>, firstSeen: map<string, nat>)
    requires Tallied(answers, counts, firstSeen)
    ensures forall a :: a in answers ==> 0 < counts[a] <= |answers| && firstSeen[a] < |answers|
    ensures forall a, b :: a in answers && b in answers && a != b ==> firstSeen[a] != firstSeen[b]
  {
    forall a | a in answers
      ensures 0 < counts[a] <= |answers| && firstSeen[a] < |answers| && answers[firstSeen[a]] == a
    {
      assert a in counts;
      CountIsBounded(answers, a);
      FirstAtSeen(answers, a);
    }
  }

  /** The pick loop. It visits the keys of the map in whatever order: the choice of the next key is
      left open. */
  method PickConsensusCandidate(counts: map<string, nat>, firstSeen: map<string, nat>)
    returns (bestAddr: string, bestCount: int)
    requires counts.Keys == firstSeen.Keys
    ensures counts == map[] ==> bestAddr == "" && bestCount == -1
    ensures counts != map[] ==>
              && bestAddr in counts && bestCount == counts[bestAddr]
              && forall a :: a in counts ==>
                   counts[a] < bestCount || (counts[a] == bestCount && firstSeen[bestAddr] <= firstSeen[a])
  {
    bestAddr, bestCount := "", -1;
    var bestFirstSeen := 0;
    var keys := counts.Keys;
    while keys != {}
      invariant keys <= counts.Keys
      invariant keys == counts.Keys ==> bestAddr == "" && bestCount == -1
      invariant keys != counts.Keys ==>
                  bestAddr in counts && bestCount == counts[bestAddr] && bestFirstSeen == firstSeen[bestAddr]
      invariant forall a :: a in counts && a !in keys ==>
                  counts[a] < bestCount || (counts[a] == bestCount && bestFirstSeen <= firstSeen[a])
      decreases keys
    {
      var addr :| addr in keys;
      keys := keys - {addr};
      var count := counts[addr];
      if count > bestCount {
        bestAddr := addr;
        bestCount := count;
        bestFirstSeen := firstSeen[addr];
        continue;
      }
      if count == bestCount && firstSeen[addr] < bestFirstSeen {
        bestAddr := addr;
        bestFirstSeen := firstSeen[addr];
      }
    }
  }

  datatype Selection = NoResolvers | NoAnswer | Selected(addr: string, agreement: real, trusted: bool)

  // Up to here counts are exact as 64-bit floats.
  const EXACT := 0x20_0000_0000_0000

  /** What is used of the rounding of a quotient to a 64-bit float: it keeps the order, 1 and one half are
      floats, and no share of exact counts is so small that it becomes 0. */
  ghost predicate IsRounding(round: real -> real) {
    && (forall x, y :: x <= y ==> round(x) <= round(y))
    && round(1.0) == 1.0 && round(0.5) == 0.5
    && (forall c: int, n: int :: 0 < c <= n < EXACT ==> round(Share(c, n)) > 0.0)
  }

  function Share(c: int, n: int): real
    requires n != 0
  {
    c as real / n as real
  }

  /** resolveWithConsensus. Below the threshold or the minimum of responses the candidate is selected
      all the same; only a warning is logged. */
  method ResolveWithConsensus(
    responses: seq<Option<string>>, threshold: real, minResponses: int, round: real -> real)
    returns (r: Selection)
    requires IsRounding(round) && |responses| < EXACT
    ensures r.NoResolvers? <==> responses == []
    ensures r.NoAnswer? <==> responses != [] && Answers(responses) == []
    ensures r.NoAnswer? <==> responses != [] && forall i :: 0 <= i < |responses| ==> responses[i].None?
    ensures r.Selected? ==>
              var votes, answered := multiset(responses)[Some(r.addr)], |responses| - multiset(responses)[None];
              && Wins(responses, r.addr) && answered > 0
              && r.agreement == round(votes as real / answered as real)
              && (r.trusted <==> minResponses <= answered && threshold <= r.agreement)
    ensures r.Selected? ==>
              var answers := Answers(responses);
              && IsWinner(answers, r.addr)
              && r.agreement == round(Share(Count(answers, r.addr), |answers|))
              && 0.0 < r.agreement <= 1.0
              && (r.trusted <==> minResponses <= |answers| && threshold <= r.agreement)
  {
    if |responses| == 0 {
      return NoResolvers;
    }
    var counts, firstSeen, successful := Tally(responses);
    if successful == 0 {
      AllNone(responses);
      return NoAnswer;
    }
    ghost var answers := Answers(responses);
    TallyIsFaithful(answers, counts, firstSeen);
    assert answers[0] in counts;
    var selected, winnerCount := PickConsensusCandidate(counts, firstSeen);
    assert selected in answers;
    RatioIsShare(winnerCount, successful);
    AnswersAreFewer(responses);
    WinnerIffWins(responses, selected);
    var agreement := round(Share(winnerCount, successful));
    r := Selected(selected, agreement, !(successful < minResponses || agreement < threshold));
  }

  lemma {:induction false} AllNone(responses: seq<Option<string>>)
    requires multiset(responses)[None] == |responses|
    ensures forall i :: 0 <= i < |responses| ==> responses[i].None?
  {
    if responses != [] {
      var front, last := responses[..|responses| - 1], responses[|responses| - 1];
      assert responses == front + [last];
      assert multiset(front)[None] <= |multiset(front)|;
      AllNone(front);
    }
  }

  lemma {:induction false} AnswersAreFewer(responses: seq<Option<string>>)
    ensures |Answers(responses)| <= |responses|
  {
    if responses != [] {
      AnswersAreFewer(responses[..|responses| - 1]);
    }
  }

  lemma RatioIsShare(c: int, n: int)
    requires 0 < c <= n
    ensures 0.0 < Share(c, n) <= 1.0
  {
  }

  lemma OverHalf(c: int, n: int)
    requires 0 < n && Share(c, n) > 0.5
    ensures 2 * c > n
  {
    var x := Share(c, n);
    var half := 0.5 * n as real;
    assert c as real == x * n as real;
    assert x * n as real > half;
    assert (2 * c) as real > n as real;
  }

  lemma RoundingKeepsOrder(round: real -> real, x: real, y: real)
    requires IsRounding(round) && round(x) > round(y)
    ensures x > y
  {
  }

  // A rounded share above one half is a share above one half.
  lemma ShareOverHalf(c: int, n: int, threshold: real, round: real -> real)
    requires IsRounding(round) && 0 < n && threshold > 0.5 && round(Share(c, n)) >= threshold
    ensures 2 * c > n
  {
    var x := Share(c, n);
    RoundingKeepsOrder(round, x, 0.5);
    OverHalf(c, n);
  }

  // ----- when the order of the answers does not matter

  lemma SameCounts(a: seq<string>, b: seq<string>, x: string)
    requires multiset(a) == multiset(b)
    ensures Count(a, x) == Count(b, x) && (x in a <==> x in b) && |a| == |b|
  {
    assert x in a <==> x in multiset(a);
    assert |multiset(a)| == |a| && |multiset(b)| == |b|;
  }

  /** The selection is the same for every order of the answers exactly when no other answer was given as
      often as the selected one. */
  lemma OrderIsIrrelevantIffClear(answers: seq<string>, winner: string)
    requires IsWinner(answers, winner)
    ensures (forall p :: multiset(p) == multiset(answers) ==> IsWinner(p, winner)) <==> IsClear(answers, winner)
  {
    if IsClear(answers, winner) {
      forall p | multiset(p) == multiset(answers)
        ensures IsWinner(p, winner)
      {
        forall x
          ensures Count(p, x) == Count(answers, x) && (x in p <==> x in answers)
        {
          SameCounts(p, answers, x);
        }
      }
    } else {
      var rival :| rival in answers && rival != winner && Count(answers, rival) == Count(answers, winner);
      RivalWins(answers, winner, rival);
    }
  }

  // With a tie, the rival wins once it is moved to the front.
  lemma RivalWins(answers: seq<string>, winner: string, rival: string)
    requires rival in answers && rival != winner && Count(answers, rival) == Count(answers, winner)
    ensures exists p :: multiset(p) == multiset(answers) && !IsWinner(p, winner)
  {
    var i :| 0 <= i < |answers| && answers[i] == rival;
    var p := [rival] + (answers[..i] + answers[i + 1..]);
    assert answers == answers[..i] + [rival] + answers[i + 1..];
    assert multiset(p) == multiset(answers);
    SameCounts(p, answers, rival);
    SameCounts(p, answers, winner);
    assert p[0] == rival && rival in p;
    FirstAtIsFirst(p, rival);
    assert FirstAt(p, rival) == 0;
    assert !IsWinner(p, winner);
  }

  /** Majority stability: an agreement that meets a threshold above one half makes the selected address
      a strict majority, selected under every order of the same answers. */
  lemma MajorityIsStable(
    answers: seq<string>, winner: string, threshold: real, round: real -> real, p: seq<string>)
    requires IsWinner(answers, winner) && threshold > 0.5 && IsRounding(round)
    requires round(Share(Count(answers, winner), |answers|)) >= threshold
    requires multiset(p) == multiset(answers)
    ensures 2 * Count(answers, winner) > |answers|
    ensures IsWinner(p, winner)
  {
    ShareOverHalf(Count(answers, winner), |answers|, threshold, round);
    forall b | b in answers && b != winner
      ensures Count(answers, b) < Count(answers, winner)
    {
      TwoCounts(answers, winner, b);
    }
    OrderIsIrrelevantIffClear(answers, winner);
  }

  lemma {:induction false} TwoCounts(answers: seq<string>, a: string, b: string)
    requires a != b
    ensures Count(answers, a) + Count(answers, b) <= |answers|
    decreases |answers|
  {
    if answers != [] {
      TwoCounts(answers[1..], a, b);
      assert answers == [answers[0]] + answers[1..];
    }
  }
}
