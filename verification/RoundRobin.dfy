/**
 * Choosing peers in turn. The peers are shuffled, handed out a few at a time, and shuffled
 * again when all have been handed out; `rest` below is what is left of the current shuffle.
 */
module RoundRobin {
  import opened Sequences

  ghost predicate Shuffle<T(!new)>(list: seq<T>, peers: set<T>) {
    Distinct(list) && forall x :: x in list <==> x in peers
  }

  /** One call on a fixed set of peers: it takes from what is left, and from a new shuffle at most. */
  ghost predicate Turn<T(!new)>(peers: set<T>, rest: seq<T>, picks: seq<T>, rest': seq<T>) {
    || picks + rest' == rest
    || exists list :: Shuffle(list, peers) && picks + rest' == rest + list
  }

  function Flatten<T>(lists: seq<seq<T>>): seq<T> {
    if lists == [] then [] else lists[0] + Flatten(lists[1..])
  }

  lemma {:induction false} FlattenSnoc<T>(lists: seq<seq<T>>, last: seq<T>)
    ensures Flatten(lists + [last]) == Flatten(lists) + last
  {
    if lists == [] {
      assert [last][1..] == [];
      assert lists + [last] == [last];
      assert Flatten([last]) == last + Flatten([]);
    } else {
      assert (lists + [last])[1..] == lists[1..] + [last];
      FlattenSnoc(lists[1..], last);
    }
  }

  /** A series of calls on fixed peers, starting from a fresh list. */
  ghost predicate Calls<T(!new)>(peers: set<T>, rests: seq<seq<T>>, picks: seq<seq<T>>) {
    && |rests| == |picks| + 1 && rests[0] == []
    && forall k :: 0 <= k < |picks| ==> Turn(peers, rests[k], picks[k], rests[k + 1])
  }

  ghost predicate Rounds<T(!new)>(rounds: seq<seq<T>>, peers: set<T>) {
    forall k :: 0 <= k < |rounds| ==> Shuffle(rounds[k], peers)
  }

  /** All picks so far, and what is left, are whole shuffles one after the other. */
  lemma {:induction false} PicksAreShuffles<T(!new)>(
      peers: set<T>, rests: seq<seq<T>>, picks: seq<seq<T>>) returns (rounds: seq<seq<T>>)
    requires Calls(peers, rests, picks)
    ensures Rounds(rounds, peers) && Flatten(picks) + rests[|picks|] == Flatten(rounds)
  {
    if picks == [] {
      rounds := [];
    } else {
      var n := |picks| - 1;
      var before := PicksAreShuffles(peers, rests[..n + 1], picks[..n]);
      assert picks[..n] + [picks[n]] == picks;
      FlattenSnoc(picks[..n], picks[n]);
      rounds := RoundsNext(peers, before, Flatten(picks[..n]), rests[n], picks[n], rests[n + 1]);
    }
  }

  lemma {:induction false} RoundsNext<T(!new)>(
    peers: set<T>, before: seq<seq<T>>, all: seq<T>, rest: seq<T>, picks: seq<T>, rest': seq<T>)
    returns (rounds: seq<seq<T>>)
    requires Rounds(before, peers) && all + rest == Flatten(before) && Turn(peers, rest, picks, rest')
    ensures Rounds(rounds, peers) && all + picks + rest' == Flatten(rounds)
  {
    assert all + picks + rest' == all + (picks + rest');
    if picks + rest' == rest {
      rounds := before;
    } else {
      var list :| Shuffle(list, peers) && picks + rest' == rest + list;
      rounds := before + [list];
      FlattenSnoc(before, list);
      assert all + (rest + list) == all + rest + list;
    }
  }

  lemma {:induction false} ShuffleLength<T(!new)>(list: seq<T>, peers: set<T>)
    requires Shuffle(list, peers)
    ensures |list| == |peers|
    decreases |list|
  {
    if list == [] {
      assert peers == {};
    } else {
      var n := |list| - 1;
      assert list == list[..n] + [list[n]];
      assert list[n] in peers;
      forall x ensures x in list[..n] <==> x in peers - {list[n]} {
        assert x in list <==> x in list[..n] || x == list[n];
      }
      ShuffleLength(list[..n], peers - {list[n]});
    }
  }

  /** A whole round begins within n picks of any place. */
  lemma {:induction false} RoundNear<T(!new)>(rounds: seq<seq<T>>, peers: set<T>, i: nat) returns (b: nat)
    requires Rounds(rounds, peers) && |peers| > 0 && i + 2 * |peers| - 1 <= |Flatten(rounds)|
    ensures i <= b < i + |peers| && b + |peers| <= |Flatten(rounds)|
    ensures Shuffle(Flatten(rounds)[b..b + |peers|], peers)
    decreases |rounds|, 1
  {
    var n, tail := |peers|, Flatten(rounds[1..]);
    ShuffleLength(rounds[0], peers);
    if i == 0 {
      b := 0;
      FirstRound(rounds, peers);
    } else {
      var c := 0;
      if i < n {
        FirstRound(rounds[1..], peers);
      } else {
        c := LaterRound(rounds, peers, i - n);
      }
      Shift(rounds[0], tail, c, n);
      b := n + c;
    }
  }

  lemma {:induction false} FirstRound<T(!new)>(rounds: seq<seq<T>>, peers: set<T>)
    requires Rounds(rounds, peers) && rounds != []
    ensures |peers| <= |Flatten(rounds)| && Shuffle(Flatten(rounds)[0..|peers|], peers)
  {
    ShuffleLength(rounds[0], peers);
    assert Flatten(rounds)[0..|peers|] == rounds[0];
  }

  lemma {:induction false} LaterRound<T(!new)>(rounds: seq<seq<T>>, peers: set<T>, i: nat) returns (b: nat)
    requires Rounds(rounds, peers) && |peers| > 0 && rounds != [] && i + 2 * |peers| - 1 <= |Flatten(rounds[1..])|
    ensures i <= b < i + |peers| && b + |peers| <= |Flatten(rounds[1..])|
    ensures Shuffle(Flatten(rounds[1..])[b..b + |peers|], peers)
    decreases |rounds|, 0
  {
    assert forall k :: 0 <= k < |rounds[1..]| ==> rounds[1..][k] == rounds[k + 1];
    b := RoundNear(rounds[1..], peers, i);
  }

  lemma {:induction false} Shift<T>(first: seq<T>, tail: seq<T>, b: nat, n: nat)
    requires b + n <= |tail|
    ensures (first + tail)[|first| + b..|first| + b + n] == tail[b..b + n]
  {
  }

  /** Any 2n - 1 picks in a row include every one of n peers, whatever the sizes of the calls and the
      outcomes of the shuffles. */
  lemma {:induction false} EveryPeerGetsATurn<T(!new)>(
      peers: set<T>, rests: seq<seq<T>>, picks: seq<seq<T>>, i: nat, peer: T)
    requires Calls(peers, rests, picks) && peer in peers
    requires i + 2 * |peers| - 1 <= |Flatten(picks)|
    ensures peer in Flatten(picks)[i..i + 2 * |peers| - 1]
  {
    var n, all := |peers|, Flatten(picks);
    var rounds := PicksAreShuffles(peers, rests, picks);
    var b := RoundNear(rounds, peers, i);
    var round := Flatten(rounds)[b..b + n];
    assert peer in round;
    var k :| 0 <= k < n && round[k] == peer;
    assert all[i..i + 2 * n - 1][b - i + k] == Flatten(rounds)[b + k] == peer;
  }

  /** 2n - 1 picks in a row, for n peers. */
  function Window<T>(all: seq<T>, i: nat, peers: set<T>): seq<T> {
    if |peers| > 0 && i + 2 * |peers| - 1 <= |all| then all[i..i + 2 * |peers| - 1] else all
  }

  /** Any 2n - 1 in a row include every one of the n peers. */
  ghost predicate Fair<T(!new)>(all: seq<T>, peers: set<T>) {
    forall i: nat, peer :: peer in peers && i + 2 * |peers| - 1 <= |all| ==> peer in Window(all, i, peers)
  }

  lemma {:induction false} CallsAreFair<T(!new)>(peers: set<T>, rests: seq<seq<T>>, picks: seq<seq<T>>)
    requires Calls(peers, rests, picks)
    ensures Fair(Flatten(picks), peers)
  {
    forall i: nat, peer | peer in peers && i + 2 * |peers| - 1 <= |Flatten(picks)|
      ensures peer in Window(Flatten(picks), i, peers)
    {
      EveryPeerGetsATurn(peers, rests, picks, i, peer);
    }
  }

  /** The picks of calls that ask for one peer each. */
  function Singles<T>(all: seq<T>): seq<seq<T>> {
    seq(|all|, i requires 0 <= i < |all| => [all[i]])
  }

  lemma {:induction false} FlattenSingles<T>(all: seq<T>)
    ensures Flatten(Singles(all)) == all
  {
    if all != [] {
      assert Singles(all)[1..] == Singles(all[1..]);
      FlattenSingles(all[1..]);
      assert all == [all[0]] + all[1..];
    }
  }

  /** What is left after k single picks from two shuffles of n peers. */
  function RestAfter<T>(one: seq<T>, two: seq<T>, k: nat): seq<T>
    requires |one| == |two| && k <= 2 * |one|
  {
    if k == 0 then [] else if k <= |one| then one[k..] else two[k - |one|..]
  }

  lemma {:induction false} SinglePicksAreCalls<T(!new)>(peers: set<T>, one: seq<T>, two: seq<T>)
    requires Shuffle(one, peers) && Shuffle(two, peers) && |one| == |two| > 0
    ensures var all := one + two;
      Calls(peers, seq(|all| + 1, k requires 0 <= k <= |all| => RestAfter(one, two, k)), Singles(all))
  {
    var all, n := one + two, |one|;
    forall k | 0 <= k < |all| ensures Turn(peers, RestAfter(one, two, k), [all[k]], RestAfter(one, two, k + 1)) {
      if k == 0 {
        assert [all[0]] + one[1..] == [] + one;
      } else if k < n {
        assert [all[k]] + one[k + 1..] == one[k..];
      } else if k == n {
        assert one[n..] == [];
        assert [all[n]] + two[1..] == [] + two;
      } else {
        assert [all[k]] + two[k - n + 1..] == two[k - n..];
      }
    }
  }

  lemma {:induction false} ShuffleWithOne<T(!new)>(peers: set<T>, a: T, others: seq<T>)
    requires a in peers && Shuffle(others, peers - {a})
    ensures Shuffle([a] + others, peers) && Shuffle(others + [a], peers) && |others| == |peers| - 1
  {
    ShuffleLength(others, peers - {a});
  }

  lemma {:induction false} OnlyAtTheEnds<T>(a: T, others: seq<T>)
    requires a !in others
    ensures a !in (([a] + others) + (others + [a]))[1..1 + 2 * |others|]
  {
    assert (([a] + others) + (others + [a]))[1..1 + 2 * |others|] == others + others;
  }

  /** One pick fewer may miss a peer: of n >= 2 peers, picked one at a time, any one can be left out of
      2n - 2 picks in a row. */
  lemma {:induction false} ShorterWindowMayMiss<T(!new)>(peers: set<T>, a: T, others: seq<T>)
    returns (rests: seq<seq<T>>, picks: seq<seq<T>>)
    requires a in peers && |peers| >= 2 && Shuffle(others, peers - {a})
    ensures Calls(peers, rests, picks) && forall k :: 0 <= k < |picks| ==> |picks[k]| == 1
    ensures |Flatten(picks)| == 2 * |peers| && a !in Flatten(picks)[1..1 + (2 * |peers| - 2)]
  {
    var one, two := [a] + others, others + [a];
    ShuffleWithOne(peers, a, others);
    SinglePicksAreCalls(peers, one, two);
    FlattenSingles(one + two);
    OnlyAtTheEnds(a, others);
    rests := seq(|one + two| + 1, k requires 0 <= k <= |one + two| => RestAfter(one, two, k));
    picks := Singles(one + two);
  }
}
