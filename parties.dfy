/**
 Party grouping in the last-match report: `get_party_players` and the loop
 over `all_players` that reports every party once, keeping the set of
 party ids already processed.
 */
module Parties {
  import opened Records

  /** `'party_id' in player and player['party_id'] == key`. */
  predicate InParty(p: Player, key: Field<string>) {
    !p.partyId.Missing? && p.partyId == key
  }

  /** The players of the list that carry the party id `key`, in list order. */
  function PartyPlayers(players: seq<Player>, key: Field<string>): (r: seq<Player>)
    ensures |r| <= |players|
  {
    if players == [] then []
    else (if InParty(players[0], key) then [players[0]] else []) + PartyPlayers(players[1..], key)
  }

  /** Exactly the players of the list that carry the id are kept. */
  lemma {:induction false} PartyPlayersMembers(players: seq<Player>, key: Field<string>)
    ensures |PartyPlayers(players, key)| <= |players|
    ensures forall p :: p in PartyPlayers(players, key) <==> p in players && InParty(p, key)
  {
    if players != [] {
      PartyPlayersMembers(players[1..], key);
      assert players == [players[0]] + players[1..];
    }
  }

  /** `a` is `b` with some elements removed and the rest kept in order. */
  predicate IsSubsequence<T(==)>(a: seq<T>, b: seq<T>)
    decreases |b|
  {
    if a == [] then true
    else if b == [] then false
    else if a[0] == b[0] then IsSubsequence(a[1..], b[1..])
    else IsSubsequence(a, b[1..])
  }

  lemma {:induction false} PartyPlayersIsSubsequence(players: seq<Player>, key: Field<string>)
    ensures IsSubsequence(PartyPlayers(players, key), players)
  {
    if players != [] {
      PartyPlayersIsSubsequence(players[1..], key);
      var r := PartyPlayers(players, key);
      if InParty(players[0], key) {
        assert r[0] == players[0] && r[1..] == PartyPlayers(players[1..], key);
      } else {
        assert r == PartyPlayers(players[1..], key);
        if r != [] {
          PartyPlayersMembers(players[1..], key);
          assert r[0] in r;
          assert r[0] != players[0];
        }
      }
    }
  }

  /** No player with the id is dropped and no other player is kept, counting duplicates. */
  lemma {:induction false} PartyPlayersCount(players: seq<Player>, key: Field<string>, x: Player)
    ensures multiset(PartyPlayers(players, key))[x]
            == if InParty(x, key) then multiset(players)[x] else 0
  {
    if players != [] {
      PartyPlayersCount(players[1..], key, x);
      var rest := PartyPlayers(players[1..], key);
      assert players == [players[0]] + players[1..];
      assert multiset(players) == multiset{players[0]} + multiset(players[1..]);
      if InParty(players[0], key) {
        assert multiset(PartyPlayers(players, key)) == multiset{players[0]} + multiset(rest);
      } else {
        assert PartyPlayers(players, key) == rest;
      }
    }
  }

  /** Filtering a concatenation filters each part. */
  lemma {:induction false} PartyPlayersAppend(a: seq<Player>, b: seq<Player>, key: Field<string>)
    ensures PartyPlayers(a + b, key) == PartyPlayers(a, key) + PartyPlayers(b, key)
  {
    if a != [] {
      PartyPlayersAppend(a[1..], b, key);
      assert (a + b)[1..] == a[1..] + b;
    } else {
      assert a + b == b;
    }
  }

  /** The first player with the id heads the list of its party. */
  lemma {:induction false} FirstMemberHeadsParty(players: seq<Player>, i: nat)
    requires i < |players| && !players[i].partyId.Missing?
    requires forall j :: 0 <= j < i ==> players[j].partyId != players[i].partyId
    ensures var r := PartyPlayers(players, players[i].partyId);
            |r| > 0 && r[0] == players[i]
  {
    if i > 0 {
      FirstMemberHeadsParty(players[1..], i - 1);
    }
  }

  /** Two players of the list share the party id `key`. */
  lemma {:induction false} TwoMembers(players: seq<Player>, key: Field<string>) returns (i: nat, j: nat)
    requires |PartyPlayers(players, key)| >= 2
    ensures i < j < |players| && InParty(players[i], key) && InParty(players[j], key)
  {
    var tail := players[1..];
    var rest := PartyPlayers(tail, key);
    if InParty(players[0], key) {
      assert PartyPlayers(players, key) == [players[0]] + rest;
      var x := rest[0];
      PartyPlayersMembers(tail, key);
      assert x in rest;
      var k :| 0 <= k < |tail| && tail[k] == x;
      i, j := 0, k + 1;
    } else {
      assert PartyPlayers(players, key) == rest;
      var i', j' := TwoMembers(tail, key);
      i, j := i' + 1, j' + 1;
    }
  }

  /** Two players that share a party id make a party of at least two. */
  lemma SharedMakesTwo(players: seq<Player>, i: nat, j: nat)
    requires i < j < |players| && InParty(players[i], players[j].partyId)
    ensures |PartyPlayers(players, players[j].partyId)| >= 2
  {
    var key := players[j].partyId;
    var before, after := players[..j], players[j..];
    PartyPlayersAppend(before, after, key);
    PartyPlayersMembers(before, key);
    PartyPlayersMembers(after, key);
    assert before + after == players;
    assert players[i] == before[i];
    assert players[i] in PartyPlayers(before, key);
    assert after[0] == players[j];
    assert players[j] in PartyPlayers(after, key);
  }

  /** What the loop reports about one player. */
  datatype Report =
    | Party(anchor: Player, members: seq<Player>)   // the player, then "Party with:" and every member
    | NoParty(player: Player)                       // the player, then "Party with: No party"

  function Anchor(r: Report): Player {
    match r
    case Party(a, _) => a
    case NoParty(p) => p
  }

  /** No earlier player of the list has the party id of player `i`. */
  predicate FirstOfParty(players: seq<Player>, i: nat)
    requires i < |players|
  {
    forall j :: 0 <= j < i ==> players[j].partyId != players[i].partyId
  }

  /**
   What is reported for player `i`: nothing without a party id; the party at
   its first member when two or more players share the id; "no party" for a
   player whose id nobody else has.
   */
  function ReportAt(players: seq<Player>, i: nat): seq<Report>
    requires i < |players|
  {
    var p := players[i];
    if p.partyId.Missing? then []
    else
      var members := PartyPlayers(players, p.partyId);
      if |members| > 1 then (if FirstOfParty(players, i) then [Party(p, members)] else [])
      else [NoParty(p)]
  }

  /** The reports for the first `n` players, in list order. */
  function Reports(players: seq<Player>, n: nat): seq<Report>
    requires n <= |players|
  {
    if n == 0 then [] else Reports(players, n - 1) + ReportAt(players, n - 1)
  }

  /** The party ids of the first `n` players that two or more players share. */
  function SharedIds(players: seq<Player>, n: nat): set<Field<string>>
    requires n <= |players|
  {
    if n == 0 then {}
    else
      var key := players[n - 1].partyId;
      SharedIds(players, n - 1)
      + (if !key.Missing? && |PartyPlayers(players, key)| > 1 then {key} else {})
  }

  lemma {:induction false} InSharedIds(players: seq<Player>, n: nat, key: Field<string>)
    requires n <= |players|
    ensures key in SharedIds(players, n)
            <==> !key.Missing? && |PartyPlayers(players, key)| > 1
                 && exists j :: 0 <= j < n && players[j].partyId == key
  {
    if n > 0 {
      InSharedIds(players, n - 1, key);
    }
  }

  /** The set of processed ids only grows as the loop advances. */
  lemma {:induction false} SharedIdsGrow(players: seq<Player>, m: nat, n: nat)
    requires m <= n <= |players|
    ensures SharedIds(players, m) <= SharedIds(players, n)
  {
    if m < n {
      SharedIdsGrow(players, m, n - 1);
    }
  }

  /** At the end the processed ids are exactly the ids shared by two or more players. */
  lemma SharedIdsExactly(players: seq<Player>, key: Field<string>)
    ensures key in SharedIds(players, |players|)
            <==> !key.Missing? && |PartyPlayers(players, key)| > 1
  {
    InSharedIds(players, |players|, key);
    if !key.Missing? && |PartyPlayers(players, key)| > 1 {
      var r := PartyPlayers(players, key);
      PartyPlayersMembers(players, key);
      assert r[0] in r;
      var j :| 0 <= j < |players| && players[j] == r[0];
      assert players[j].partyId == key;
    }
  }

  /** No party id is carried by two players of the list. */
  predicate NoSharedParty(players: seq<Player>) {
    forall i, j :: 0 <= i < j < |players| ==> !InParty(players[i], players[j].partyId)
  }

  /** The processed set ends empty exactly when no party id is shared. */
  lemma NoSharedIdsIff(players: seq<Player>)
    ensures SharedIds(players, |players|) == {} <==> NoSharedParty(players)
  {
    if SharedIds(players, |players|) == {} {
      forall i, j | 0 <= i < j < |players| && InParty(players[i], players[j].partyId)
        ensures false
      {
        SharedMakesTwo(players, i, j);
        SharedIdsExactly(players, players[j].partyId);
      }
    } else {
      var key :| key in SharedIds(players, |players|);
      SharedIdsExactly(players, key);
      var i, j := TwoMembers(players, key);
      assert InParty(players[i], players[j].partyId);
    }
  }

  /** The number of party reports among `reports` whose anchor carries the id `key`. */
  function PartyReportCount(reports: seq<Report>, key: Field<string>): nat
  {
    if reports == [] then 0
    else (if reports[0].Party? && reports[0].anchor.partyId == key then 1 else 0)
         + PartyReportCount(reports[1..], key)
  }

  lemma {:induction false} PartyReportCountAppend(a: seq<Report>, b: seq<Report>, key: Field<string>)
    ensures PartyReportCount(a + b, key) == PartyReportCount(a, key) + PartyReportCount(b, key)
  {
    if a != [] {
      PartyReportCountAppend(a[1..], b, key);
      assert (a + b)[1..] == a[1..] + b;
    } else {
      assert a + b == b;
    }
  }

  /** Player `i` gives a party report for `key` iff it is the first carrier of that shared id. */
  lemma ReportAtCount(players: seq<Player>, key: Field<string>, f: nat, i: nat)
    requires f < |players| && InParty(players[f], key) && FirstOfParty(players, f)
    requires |PartyPlayers(players, key)| > 1
    requires i < |players|
    ensures PartyReportCount(ReportAt(players, i), key) == if i == f then 1 else 0
  {
    if i > f && players[i].partyId == key {
      assert !FirstOfParty(players, i) by {
        assert players[f].partyId == players[i].partyId;
      }
    }
    var step := ReportAt(players, i);
    if step != [] {
      assert step[1..] == [];
    }
  }

  /** Among the reports for the first `n` players, the count is the number of those players that give one. */
  lemma {:induction false} PartyReportCountUpTo(players: seq<Player>, key: Field<string>, f: nat, n: nat)
    requires n <= |players|
    requires forall i :: 0 <= i < |players| ==> PartyReportCount(ReportAt(players, i), key) == if i == f then 1 else 0
    ensures PartyReportCount(Reports(players, n), key) == if n <= f then 0 else 1
  {
    if n > 0 {
      PartyReportCountUpTo(players, key, f, n - 1);
      PartyReportCountAppend(Reports(players, n - 1), ReportAt(players, n - 1), key);
    }
  }

  /** The reports for the first `n` players keep those for the first `m`. */
  lemma {:induction false} ReportsPrefix(players: seq<Player>, m: nat, n: nat)
    requires m <= n <= |players|
    ensures Reports(players, m) <= Reports(players, n)
  {
    if m < n {
      ReportsPrefix(players, m, n - 1);
    }
  }

  /**
   A party id that two or more players share is reported exactly once, at
   the first player that carries it, with every member in list order; the
   member list starts with that first player.
   */
  lemma PartyReportedOnce(players: seq<Player>, f: nat)
    requires f < |players| && !players[f].partyId.Missing? && FirstOfParty(players, f)
    requires |PartyPlayers(players, players[f].partyId)| > 1
    ensures var key := players[f].partyId;
            var members := PartyPlayers(players, key);
            && PartyReportCount(Reports(players, |players|), key) == 1
            && Party(players[f], members) in Reports(players, |players|)
            && members[0] == players[f]
  {
    var key := players[f].partyId;
    forall i | 0 <= i < |players|
      ensures PartyReportCount(ReportAt(players, i), key) == if i == f then 1 else 0
    {
      ReportAtCount(players, key, f, i);
    }
    PartyReportCountUpTo(players, key, f, |players|);
    ReportsPrefix(players, f + 1, |players|);
    assert Reports(players, f + 1)[|Reports(players, f)|] == Party(players[f], PartyPlayers(players, key));
    FirstMemberHeadsParty(players, f);
  }

  /** A player whose party id nobody else carries is reported with "no party". */
  lemma SingletonReported(players: seq<Player>, i: nat)
    requires i < |players| && !players[i].partyId.Missing?
    requires |PartyPlayers(players, players[i].partyId)| == 1
    ensures NoParty(players[i]) in Reports(players, |players|)
  {
    ReportsPrefix(players, i + 1, |players|);
    assert Reports(players, i + 1)[|Reports(players, i)|] == NoParty(players[i]);
  }

  /**
   Every report names a player of the list that has a party id; a party
   report lists the two or more members of the anchor's party, starting with
   the anchor, and a "no party" report is for a player alone with its id.
   */
  lemma {:induction false} ReportsWellFormed(players: seq<Player>, n: nat)
    requires n <= |players|
    ensures forall r :: r in Reports(players, n) ==>
              && Anchor(r) in players[..n]
              && !Anchor(r).partyId.Missing?
              && |PartyPlayers(players, Anchor(r).partyId)| >= 1
              && (r.Party? <==> |PartyPlayers(players, Anchor(r).partyId)| > 1)
              && (r.Party? ==> r.members == PartyPlayers(players, r.anchor.partyId)
                               && r.members[0] == r.anchor)
  {
    if n > 0 {
      ReportsWellFormed(players, n - 1);
      var p := players[n - 1];
      assert players[..n] == players[..n - 1] + [p];
      if !p.partyId.Missing? {
        PartyPlayersMembers(players, p.partyId);
        assert p in PartyPlayers(players, p.partyId);
        if |PartyPlayers(players, p.partyId)| > 1 && FirstOfParty(players, n - 1) {
          FirstMemberHeadsParty(players, n - 1);
        }
      }
    }
  }

  /** The loop of the last-match report over `all_players`. */
  method GroupParties(players: seq<Player>) returns (reports: seq<Report>, processed: set<Field<string>>, noUniqueParties: bool)
    ensures reports == Reports(players, |players|)
    ensures forall key :: key in processed <==> !key.Missing? && |PartyPlayers(players, key)| > 1
    ensures noUniqueParties <==> NoSharedParty(players)
  {
    reports, processed := [], {};
    for i := 0 to |players|
      invariant reports == Reports(players, i)
      invariant processed == SharedIds(players, i)
    {
      var player := players[i];
      InSharedIds(players, i, player.partyId);
      if !player.partyId.Missing? && player.partyId !in processed {
        var members := PartyPlayers(players, player.partyId);
        if |members| > 1 {
          reports := reports + [Party(player, members)];
          processed := processed + {player.partyId};
        } else {
          reports := reports + [NoParty(player)];
        }
      }
    }
    forall key ensures key in processed <==> !key.Missing? && |PartyPlayers(players, key)| > 1 {
      SharedIdsExactly(players, key);
    }
    noUniqueParties := processed == {};
    NoSharedIdsIff(players);
  }

  /** Players without a party id produce no report at all, not even "no party". */
  lemma {:induction false} NoPartyIdsNoReports(players: seq<Player>, n: nat)
    requires n <= |players|
    requires forall i :: 0 <= i < |players| ==> players[i].partyId.Missing?
    ensures Reports(players, n) == []
  {
    if n > 0 {
      NoPartyIdsNoReports(players, n - 1);
    }
  }

  /**
   A player without a party id is in no report: it anchors none and is no
   member of any party, even when other players of the list have ids.
   */
  lemma MissingPartyIdNotReported(players: seq<Player>, i: nat)
    requires i < |players| && players[i].partyId.Missing?
    ensures forall r :: r in Reports(players, |players|) ==>
              Anchor(r) != players[i] && (r.Party? ==> players[i] !in r.members)
  {
    ReportsWellFormed(players, |players|);
    forall r | r in Reports(players, |players|) && r.Party?
      ensures players[i] !in r.members
    {
      PartyPlayersMembers(players, r.anchor.partyId);
    }
  }

  /** Two players of one party and a third alone: one party of two, then "no party". */
  lemma GroupingExample(a: Player, b: Player, c: Player)
    requires a.partyId == Given("p1") && b.partyId == Given("p1") && c.partyId == Given("p2")
    ensures Reports([a, b, c], 3) == [Party(a, [a, b]), NoParty(c)]
  {
    var players := [a, b, c];
    assert [a, b, c][1..] == [b, c] && [b, c][1..] == [c] && [c][1..] == [];
    assert PartyPlayers([c], a.partyId) == [];
    assert PartyPlayers([b, c], a.partyId) == [b];
    assert PartyPlayers(players, a.partyId) == [a, b];
    assert PartyPlayers([c], c.partyId) == [c];
    assert PartyPlayers([b, c], c.partyId) == [c];
    assert PartyPlayers(players, c.partyId) == [c];
    assert ReportAt(players, 0) == [Party(a, [a, b])];
    assert ReportAt(players, 1) == [] by {
      assert !FirstOfParty(players, 1);
    }
    assert ReportAt(players, 2) == [NoParty(c)];
    assert Reports(players, 1) == [Party(a, [a, b])];
    assert Reports(players, 2) == [Party(a, [a, b])];
  }
}
