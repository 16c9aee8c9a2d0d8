/** The participant aggregator: collects the distinct person ids of a round's
    results into an accumulator, keeping the order of first appearance. */
module Participants {
  import opened Domain

  /** All person ids of a sequence of results, in order (ids may repeat). */
  function ResultIds(results: seq<Result>): seq<int>
  {
    if results == [] then []
    else ResultIds(results[..|results| - 1]) + results[|results| - 1].personIds
  }

  /** All person ids of a sequence of rounds, in order. */
  function RoundIds(rounds: seq<Round>): seq<int>
  {
    if rounds == [] then []
    else RoundIds(rounds[..|rounds| - 1]) + ResultIds(rounds[|rounds| - 1].results)
  }

  /** All person ids of a sequence of events, in order. */
  function EventIds(events: seq<CompEvent>): seq<int>
  {
    if events == [] then []
    else EventIds(events[..|events| - 1]) + RoundIds(events[|events| - 1].rounds)
  }

  /** The accumulator after pushing each of `xs`, in turn, unless it is already there. */
  function AddNew(acc: seq<int>, xs: seq<int>): seq<int>
  {
    if xs == [] then acc
    else
      var a := AddNew(acc, xs[..|xs| - 1]);
      if xs[|xs| - 1] in a then a else a + [xs[|xs| - 1]]
  }

  lemma {:induction false} AddNewConcat(acc: seq<int>, xs: seq<int>, ys: seq<int>)
    ensures AddNew(acc, xs + ys) == AddNew(AddNew(acc, xs), ys)
    decreases |ys|
  {
    if ys == [] {
      assert xs + ys == xs;
    } else {
      var ys' := ys[..|ys| - 1];
      assert (xs + ys)[..|xs + ys| - 1] == xs + ys';
      assert (xs + ys)[|xs + ys| - 1] == ys[|ys| - 1];
      AddNewConcat(acc, xs, ys');
    }
  }

  /** Aggregation keeps what was collected before, never repeats an id and
      collects exactly the old ids and the new ones. */
  lemma {:induction false} AddNewFacts(acc: seq<int>, xs: seq<int>)
    ensures |acc| <= |AddNew(acc, xs)| && AddNew(acc, xs)[..|acc|] == acc
    ensures NoDuplicates(acc) ==> NoDuplicates(AddNew(acc, xs))
    ensures Elems(AddNew(acc, xs)) == Elems(acc) + Elems(xs)
  {
    if xs != [] {
      var xs' := xs[..|xs| - 1];
      AddNewFacts(acc, xs');
      assert xs == xs' + [xs[|xs| - 1]];
      assert Elems(xs) == Elems(xs') + {xs[|xs| - 1]};
      var a := AddNew(acc, xs');
      var x := xs[|xs| - 1];
      if x !in a {
        assert (a + [x])[..|acc|] == a[..|acc|];
        assert Elems(a + [x]) == Elems(a) + {x};
      } else {
        assert x in Elems(a);
      }
    }
  }

  /** A sequence without repetitions has as many elements as its set. */
  lemma {:induction false} NoDuplicatesCard(s: seq<int>)
    requires NoDuplicates(s)
    ensures |Elems(s)| == |s|
  {
    if s != [] {
      var s' := s[..|s| - 1];
      NoDuplicatesCard(s');
      assert s == s' + [s[|s| - 1]];
      assert s[|s| - 1] !in s';
      assert Elems(s) == Elems(s') + {s[|s| - 1]};
    }
  }

  /** Pushing one id: it is appended unless already collected. */
  lemma AddNewSnoc(acc: seq<int>, xs: seq<int>, x: int)
    ensures AddNew(acc, xs + [x]) == if x in AddNew(acc, xs) then AddNew(acc, xs) else AddNew(acc, xs) + [x]
  {
    assert (xs + [x])[..|xs|] == xs;
  }

  lemma ResultIdsStep(results: seq<Result>, i: nat)
    requires i < |results|
    ensures ResultIds(results[..i + 1]) == ResultIds(results[..i]) + results[i].personIds
  {
    assert results[..i + 1][..i] == results[..i];
  }

  /** Pushes into `personIds` every id of the round's results not already in it;
      the updated accumulator is returned. */
  method GetParticipantsInRound(round: Round, personIds: seq<int>) returns (ids: seq<int>)
    ensures ids == AddNew(personIds, ResultIds(round.results))
    ensures |personIds| <= |ids| && ids[..|personIds|] == personIds
    ensures NoDuplicates(personIds) ==> NoDuplicates(ids)
    ensures Elems(ids) == Elems(personIds) + Elems(ResultIds(round.results))
  {
    ids := personIds;
    for i := 0 to |round.results|
      invariant ids == AddNew(personIds, ResultIds(round.results[..i]))
    {
      ghost var before := ids;
      var split := round.results[i].personIds;
      for j := 0 to |split|
        invariant ids == AddNew(before, split[..j])
      {
        var personId := split[j];
        assert split[..j + 1] == split[..j] + [personId];
        AddNewSnoc(before, split[..j], personId);
        if personId !in ids {
          ids := ids + [personId];
        }
      }
      assert split[..|split|] == split;
      AddNewConcat(personIds, ResultIds(round.results[..i]), split);
      ResultIdsStep(round.results, i);
    }
    assert round.results[..|round.results|] == round.results;
    AddNewFacts(personIds, ResultIds(round.results));
  }

  /** Aggregating one more round continues the aggregation of the rounds before it. */
  lemma AddRoundStep(prior: seq<int>, rounds: seq<Round>, r: nat)
    requires r < |rounds|
    ensures AddNew([], prior + RoundIds(rounds[..r + 1]))
         == AddNew(AddNew([], prior + RoundIds(rounds[..r])), ResultIds(rounds[r].results))
  {
    assert rounds[..r + 1][..r] == rounds[..r];
    assert RoundIds(rounds[..r + 1]) == RoundIds(rounds[..r]) + ResultIds(rounds[r].results);
    assert prior + RoundIds(rounds[..r + 1]) == (prior + RoundIds(rounds[..r])) + ResultIds(rounds[r].results);
    AddNewConcat([], prior + RoundIds(rounds[..r]), ResultIds(rounds[r].results));
  }

  lemma EventIdsStep(events: seq<CompEvent>, e: nat)
    requires e < |events|
    ensures EventIds(events[..e + 1]) == EventIds(events[..e]) + RoundIds(events[e].rounds)
  {
    assert events[..e + 1][..e] == events[..e];
  }

  /** The distinct person ids of all rounds of all events, in order of first appearance. */
  method GetCompetitionParticipants(events: seq<CompEvent>) returns (personIds: seq<int>)
    ensures personIds == AddNew([], EventIds(events))
    ensures NoDuplicates(personIds)
    ensures Elems(personIds) == Elems(EventIds(events))
  {
    personIds := [];
    var e := 0;
    while e < |events|
      invariant 0 <= e <= |events|
      invariant personIds == AddNew([], EventIds(events[..e]))
    {
      var rounds := events[e].rounds;
      var prior := EventIds(events[..e]);
      var r := 0;
      assert RoundIds(rounds[..0]) == [];
      assert prior + RoundIds(rounds[..0]) == prior;
      while r < |rounds|
        invariant 0 <= r <= |rounds|
        invariant personIds == AddNew([], prior + RoundIds(rounds[..r]))
      {
        AddRoundStep(prior, rounds, r);
        personIds := GetParticipantsInRound(rounds[r], personIds);
        r := r + 1;
      }
      assert rounds[..r] == rounds;
      EventIdsStep(events, e);
      e := e + 1;
    }
    assert events[..e] == events;
    AddNewFacts([], EventIds(events));
  }

  lemma ThreeResultIds(r1: Result, r2: Result, r3: Result)
    requires r1.personIds == [5, 9] && r2.personIds == [9] && r3.personIds == [12]
    ensures ResultIds([r1, r2, r3]) == [5, 9, 9, 12]
  {
    var rs := [r1, r2, r3];
    ResultIdsStep(rs, 0);
    ResultIdsStep(rs, 1);
    ResultIdsStep(rs, 2);
    assert rs[..0] == [] && rs[..3] == rs;
  }

  lemma DistinctIdsExample(xs: seq<int>)
    requires xs == [5, 9, 9, 12]
    ensures AddNew([], xs) == [5, 9, 12]
  {
    assert AddNew([], xs[..1]) == [5] by {
      AddNewSnoc([], [], 5);
      assert xs[..1] == [] + [5];
    }
    assert AddNew([], xs[..2]) == [5, 9] by {
      AddNewSnoc([], xs[..1], 9);
      assert xs[..2] == xs[..1] + [9];
    }
    assert AddNew([], xs[..3]) == [5, 9] by {
      AddNewSnoc([], xs[..2], 9);
      assert xs[..3] == xs[..2] + [9];
    }
    assert xs == xs[..3] + [12];
    AddNewSnoc([], xs[..3], 12);
  }

  /** The worked example: results "5;9", "9" and "12" give exactly {5, 9, 12}. */
  lemma ThreeResultsExample(r1: Result, r2: Result, r3: Result, round: Round)
    requires r1.personIds == [5, 9] && r2.personIds == [9] && r3.personIds == [12]
    requires round.results == [r1, r2, r3]
    ensures AddNew([], ResultIds(round.results)) == [5, 9, 12]
  {
    ThreeResultIds(r1, r2, r3);
    DistinctIdsExample(ResultIds(round.results));
  }


}
