/** Collecting state responses: the first (view, sequence) pair that more than f distinct senders report. */
module StateCollector {
  import opened Messages
  import opened Quorum

  datatype Pair = Pair(view: nat, sequence: nat)
  datatype Response = Response(sender: NodeId, pair: Pair)

  function Senders(rs: seq<Response>): set<NodeId> {
    set r | r in rs :: r.sender
  }

  /** The votes a vote set keeps: the first response of each sender. */
  function FirstOnes(arrivals: seq<Response>): seq<Response> {
    if arrivals == [] then []
    else
      var before, last := FirstOnes(arrivals[..|arrivals| - 1]), arrivals[|arrivals| - 1];
      if last.sender in Senders(before) then before else before + [last]
  }

  function Count(votes: seq<Response>, p: Pair): nat {
    if votes == [] then 0 else Count(votes[..|votes| - 1], p) + if votes[|votes| - 1].pair == p then 1 else 0
  }

  /** The first pair to be reported by more than f senders, in order of arrival. */
  function Agreed(f: nat, arrivals: seq<Response>): Option<Pair> {
    if arrivals == [] then None
    else
      var before, last := Agreed(f, arrivals[..|arrivals| - 1]), arrivals[|arrivals| - 1];
      if before.Some? then before
      else if Count(FirstOnes(arrivals), last.pair) > f then Some(last.pair)
      else None
  }

  /** Those who reported the pair first of all their reports. */
  function Backers(votes: seq<Response>, p: Pair): set<NodeId> {
    set r | r in votes && r.pair == p :: r.sender
  }

  ghost predicate OnePerSender(votes: seq<Response>) {
    forall i, j :: 0 <= i < j < |votes| ==> votes[i].sender != votes[j].sender
  }

  ghost predicate NoneAgreed(f: nat, votes: seq<Response>) {
    forall p :: Count(votes, p) <= f
  }

  lemma {:induction false} FirstOnesAreDistinct(arrivals: seq<Response>)
    ensures OnePerSender(FirstOnes(arrivals))
    ensures forall r :: r in FirstOnes(arrivals) ==> r in arrivals
  {
    if arrivals != [] {
      FirstOnesAreDistinct(arrivals[..|arrivals| - 1]);
    }
  }

  lemma {:induction false} CountIsBackers(votes: seq<Response>, p: Pair)
    requires OnePerSender(votes)
    ensures Count(votes, p) == |Backers(votes, p)|
  {
    if votes != [] {
      var init, last := votes[..|votes| - 1], votes[|votes| - 1];
      CountIsBackers(init, p);
      assert forall r :: r in votes <==> r in init || r == last;
      if last.pair == p {
        assert Backers(votes, p) == Backers(init, p) + {last.sender};
        assert last.sender !in Backers(init, p);
      } else {
        assert Backers(votes, p) == Backers(init, p);
      }
    }
  }

  /** Only the pair of the last vote can get past f. */
  lemma {:induction false} OnlyLastPairCrosses(f: nat, votes: seq<Response>, p: Pair)
    requires votes != [] && NoneAgreed(f, votes[..|votes| - 1]) && Count(votes, p) > f
    ensures p == votes[|votes| - 1].pair
  {
  }

  /** Nothing was agreed on exactly while no pair has more than f of the kept votes. */
  lemma {:induction false} AgreedExactly(f: nat, arrivals: seq<Response>)
    ensures Agreed(f, arrivals).None? <==> NoneAgreed(f, FirstOnes(arrivals))
    ensures Agreed(f, arrivals).Some? ==> Count(FirstOnes(arrivals), Agreed(f, arrivals).value) > f
  {
    if arrivals != [] {
      var init, last := arrivals[..|arrivals| - 1], arrivals[|arrivals| - 1];
      AgreedExactly(f, init);
      var before, now := FirstOnes(init), FirstOnes(arrivals);
      if now == before + [last] {
        assert now[..|now| - 1] == before;
        if NoneAgreed(f, before) && !NoneAgreed(f, now) {
          var p :| Count(now, p) > f;
          OnlyLastPairCrosses(f, now, p);
        }
      }
    }
  }

  /** The pair was reported by f+1 distinct senders; with at most f faulty ones, by a correct one. */
  lemma {:induction false} AgreedIsBacked(f: nat, arrivals: seq<Response>, faulty: set<NodeId>) returns (r: Response)
    requires Agreed(f, arrivals).Some? && |faulty| <= f
    ensures |Backers(FirstOnes(arrivals), Agreed(f, arrivals).value)| >= f + 1
    ensures r in arrivals && r.pair == Agreed(f, arrivals).value && r.sender !in faulty
  {
    var p := Agreed(f, arrivals).value;
    AgreedExactly(f, arrivals);
    FirstOnesAreDistinct(arrivals);
    CountIsBackers(FirstOnes(arrivals), p);
    var backers := Backers(FirstOnes(arrivals), p);
    if backers <= faulty {
      SubsetSize(backers, faulty);
    }
    var who :| who in backers && who !in faulty;
    r :| r in FirstOnes(arrivals) && r.pair == p && r.sender == who;
  }

  // ---- in terms of the arrivals ----

  /** The first response of its sender. */
  ghost predicate IsFirst(arrivals: seq<Response>, k: nat)
    requires k < |arrivals|
  {
    forall j :: 0 <= j < k ==> arrivals[j].sender != arrivals[k].sender
  }

  lemma {:induction false} FirstOnesExactly(arrivals: seq<Response>, r: Response)
    ensures r in FirstOnes(arrivals) <==> exists k: nat :: k < |arrivals| && arrivals[k] == r && IsFirst(arrivals, k)
    ensures r.sender in Senders(FirstOnes(arrivals))
            <==> exists k: nat :: k < |arrivals| && arrivals[k].sender == r.sender
  {
    if arrivals != [] {
      var init, last := arrivals[..|arrivals| - 1], arrivals[|arrivals| - 1];
      FirstOnesExactly(init, r);
      FirstOnesExactly(init, last);
      FirstInInit(arrivals, r);
      SendersOneMore(FirstOnes(init), last);
      SenderInInit(arrivals, r);
    }
  }

  lemma {:induction false} SendersOneMore(votes: seq<Response>, last: Response)
    ensures Senders(votes + [last]) == Senders(votes) + {last.sender}
  {
    assert forall r :: r in votes + [last] <==> r in votes || r == last;
  }

  lemma {:induction false} SenderInInit(arrivals: seq<Response>, r: Response)
    requires arrivals != []
    ensures var init, last := arrivals[..|arrivals| - 1], arrivals[|arrivals| - 1];
            (exists k: nat :: k < |arrivals| && arrivals[k].sender == r.sender)
            <==> (exists k: nat :: k < |init| && init[k].sender == r.sender) || last.sender == r.sender
  {
    var init, last := arrivals[..|arrivals| - 1], arrivals[|arrivals| - 1];
    if k: nat :| k < |init| && init[k].sender == r.sender {
      assert arrivals[k].sender == r.sender;
    }
    if k: nat :| k < |arrivals| && arrivals[k].sender == r.sender {
      assert k < |init| ==> init[k].sender == r.sender;
    }
  }

  lemma {:induction false} FirstInInit(arrivals: seq<Response>, r: Response)
    requires arrivals != []
    ensures var init, last := arrivals[..|arrivals| - 1], arrivals[|arrivals| - 1];
            (exists k: nat :: k < |arrivals| && arrivals[k] == r && IsFirst(arrivals, k))
            <==> || (exists k: nat :: k < |init| && init[k] == r && IsFirst(init, k))
                 || (r == last && !exists k: nat :: k < |init| && init[k].sender == last.sender)
  {
    var init, last := arrivals[..|arrivals| - 1], arrivals[|arrivals| - 1];
    if k: nat :| k < |init| && init[k] == r && IsFirst(init, k) {
      assert arrivals[k] == r && IsFirst(arrivals, k);
    }
    if k: nat :| k < |arrivals| && arrivals[k] == r && IsFirst(arrivals, k) {
      if k < |init| {
        assert init[k] == r && IsFirst(init, k);
      } else if j: nat :| j < |init| && init[j].sender == last.sender {
        assert arrivals[j].sender == arrivals[k].sender;
      }
    }
    if r == last && !exists k: nat :: k < |init| && init[k].sender == last.sender {
      forall j | 0 <= j < |init| ensures arrivals[j].sender != last.sender {
        assert init[j] == arrivals[j];
      }
      assert IsFirst(arrivals, |init|);
    }
  }

  /** Those whose first response is the pair. */
  ghost function Reporters(arrivals: seq<Response>, p: Pair): set<NodeId> {
    set k: nat | k < |arrivals| && IsFirst(arrivals, k) && arrivals[k].pair == p :: arrivals[k].sender
  }

  lemma {:induction false} ReporterIsBacker(arrivals: seq<Response>, p: Pair, x: NodeId)
    requires x in Reporters(arrivals, p)
    ensures x in Backers(FirstOnes(arrivals), p)
  {
    var k: nat :| k < |arrivals| && IsFirst(arrivals, k) && arrivals[k].pair == p && arrivals[k].sender == x;
    FirstOnesExactly(arrivals, arrivals[k]);
  }

  lemma {:induction false} BackerIsReporter(arrivals: seq<Response>, p: Pair, x: NodeId)
    requires x in Backers(FirstOnes(arrivals), p)
    ensures x in Reporters(arrivals, p)
  {
    var r :| r in FirstOnes(arrivals) && r.pair == p && r.sender == x;
    FirstOnesExactly(arrivals, r);
  }

  lemma {:induction false} ReportersAreBackers(arrivals: seq<Response>, p: Pair)
    ensures |Reporters(arrivals, p)| == Count(FirstOnes(arrivals), p)
  {
    forall x ensures x in Reporters(arrivals, p) <==> x in Backers(FirstOnes(arrivals), p) {
      if x in Reporters(arrivals, p) {
        ReporterIsBacker(arrivals, p, x);
      } else if x in Backers(FirstOnes(arrivals), p) {
        BackerIsReporter(arrivals, p, x);
      }
    }
    assert Reporters(arrivals, p) == Backers(FirstOnes(arrivals), p);
    FirstOnesAreDistinct(arrivals);
    CountIsBackers(FirstOnes(arrivals), p);
  }

  ghost predicate Undecided(f: nat, arrivals: seq<Response>) {
    forall p :: |Reporters(arrivals, p)| <= f
  }

  /** More than f senders' first responses are the pair, and no pair had that many before the last response. */
  ghost predicate FirstAgreed(f: nat, arrivals: seq<Response>, p: Pair) {
    && arrivals != [] && |Reporters(arrivals, p)| > f
    && Undecided(f, arrivals[..|arrivals| - 1])
  }

  /** The answer is the pair that is first to be reported by more than f senders, counting the first response of each;
      there is none exactly while no pair is. */
  lemma {:induction false} AgreesOnFirst(f: nat, arrivals: seq<Response>)
    ensures Agreed(f, arrivals).None? <==> Undecided(f, arrivals)
    ensures Agreed(f, arrivals).Some? ==>
              exists k: nat :: k <= |arrivals| && FirstAgreed(f, arrivals[..k], Agreed(f, arrivals).value)
  {
    NoneYet(f, arrivals);
    if arrivals != [] && Agreed(f, arrivals).Some? {
      var init := arrivals[..|arrivals| - 1];
      AgreesOnFirst(f, init);
      if Agreed(f, init).Some? {
        var k: nat :| k <= |init| && FirstAgreed(f, init[..k], Agreed(f, init).value);
        assert init[..k] == arrivals[..k];
      } else {
        AgreedExactly(f, arrivals);
        ReportersAreBackers(arrivals, Agreed(f, arrivals).value);
        assert arrivals[..|arrivals|] == arrivals;
        assert FirstAgreed(f, arrivals[..|arrivals|], Agreed(f, arrivals).value);
      }
    }
  }

  lemma {:induction false} NoneYet(f: nat, arrivals: seq<Response>)
    ensures Agreed(f, arrivals).None? <==> Undecided(f, arrivals)
  {
    AgreedExactly(f, arrivals);
    forall p ensures |Reporters(arrivals, p)| == Count(FirstOnes(arrivals), p) {
      ReportersAreBackers(arrivals, p);
    }
  }

  // ---- the object ----

  class Collector {
    const f: nat
    var voted: set<NodeId>
    var votes: seq<Response>

    constructor (f: nat)
      ensures voted == {} && votes == [] && this.f == f
    {
      this.f, voted, votes := f, {}, [];
    }

    method RegisterVote(r: Response)
      requires voted == Senders(votes)
      modifies this
      ensures voted == Senders(votes)
      ensures votes == if r.sender in Senders(old(votes)) then old(votes) else old(votes) + [r]
    {
      if r.sender in voted {
        return;
      }
      voted := voted + {r.sender};
      votes := votes + [r];
    }

    /** Takes every vote off the queue, counts it, and puts it back: the queue is unchanged. */
    method CountVotes() returns (counts: map<Pair, nat>)
      modifies this`votes
      ensures votes == old(votes)
      ensures forall p :: Count(votes, p) == if p in counts then counts[p] else 0
    {
      counts := map[];
      ghost var all := votes;
      var i, n := 0, |votes|;
      assert all[..0] == [] && all[0..] == all;
      while i < n
        invariant 0 <= i <= n == |all| && votes == all[i..] + all[..i]
        invariant forall p :: Count(all[..i], p) == if p in counts then counts[p] else 0
        decreases n - i
      {
        var vote := votes[0];
        assert all[..i + 1] == all[..i] + [vote] && (all[..i] + [vote])[..i] == all[..i];
        assert votes[1..] + [vote] == all[i + 1..] + all[..i + 1];
        votes := votes[1..] + [vote];
        counts := counts[vote.pair := (if vote.pair in counts then counts[vote.pair] else 0) + 1];
        i := i + 1;
      }
      assert all[..n] == all && all[n..] == [];
    }

    /** A pair with more than f votes, whichever the map yields first. */
    method CollectedEnoughEqualVotes() returns (r: Option<Pair>)
      requires voted == Senders(votes) && OnePerSender(votes)
      modifies this`votes
      ensures votes == old(votes)
      ensures r.Some? ==> Count(votes, r.value) > f
      ensures r.None? ==> NoneAgreed(f, votes)
    {
      if |voted| <= f {
        FewVotesDoNotAgree(f, votes);
        return None;
      }
      var counts := CountVotes();
      var left := counts.Keys;
      while left != {}
        invariant left <= counts.Keys
        invariant forall p :: p in counts && p !in left ==> counts[p] <= f
        decreases |left|
      {
        var p :| p in left;
        if counts[p] > f {
          return Some(p);
        }
        left := left - {p};
      }
      return None;
    }

    /** One response: register it and look for an agreement. */
    method TakeResponse(ghost before: seq<Response>, msg: Response) returns (r: Option<Pair>)
      requires votes == FirstOnes(before) && voted == Senders(votes) && Agreed(f, before).None?
      modifies this
      ensures votes == FirstOnes(before + [msg]) && voted == Senders(votes)
      ensures r == Agreed(f, before + [msg])
    {
      assert (before + [msg])[..|before|] == before;
      RegisterVote(msg);
      FirstOnesAreDistinct(before + [msg]);
      r := CollectedEnoughEqualVotes();
      AgreedExactly(f, before + [msg]);
      if r.Some? {
        AnswerIsLast(f, before, msg, r.value);
      }
    }

    /** Responses in order of arrival until enough agree; None when they end first, by timeout or stop. */
    method CollectStateResponses(arrivals: seq<Response>) returns (r: Option<Pair>)
      modifies this
      ensures r == Agreed(f, arrivals)
    {
      voted, votes := {}, [];
      r := None;
      var i := 0;
      assert arrivals[..0] == [];
      while i < |arrivals|
        invariant 0 <= i <= |arrivals| && votes == FirstOnes(arrivals[..i]) && voted == Senders(votes)
        invariant r.None? && Agreed(f, arrivals[..i]).None?
        decreases |arrivals| - i
      {
        assert arrivals[..i + 1] == arrivals[..i] + [arrivals[i]];
        r := TakeResponse(arrivals[..i], arrivals[i]);
        if r.Some? {
          StaysAgreed(f, arrivals, i + 1);
          return;
        }
        i := i + 1;
      }
      assert arrivals[..|arrivals|] == arrivals;
    }
  }

  lemma {:induction false} FewVotesDoNotAgree(f: nat, votes: seq<Response>)
    requires OnePerSender(votes) && |Senders(votes)| <= f
    ensures NoneAgreed(f, votes)
  {
    forall p ensures Count(votes, p) <= f {
      CountIsBackers(votes, p);
      SubsetSize(Backers(votes, p), Senders(votes));
    }
  }

  lemma {:induction false} AnswerIsLast(f: nat, before: seq<Response>, msg: Response, p: Pair)
    requires Agreed(f, before).None? && Count(FirstOnes(before + [msg]), p) > f
    ensures Agreed(f, before + [msg]) == Some(p)
  {
    AgreedExactly(f, before);
    assert (before + [msg])[..|before|] == before;
    var now := FirstOnes(before + [msg]);
    assert now == FirstOnes(before) || now[..|now| - 1] == FirstOnes(before);
    OnlyLastPairCrosses(f, now, p);
  }

  lemma {:induction false} StaysAgreed(f: nat, arrivals: seq<Response>, k: nat)
    requires k <= |arrivals| && Agreed(f, arrivals[..k]).Some?
    ensures Agreed(f, arrivals) == Agreed(f, arrivals[..k])
  {
    if k == |arrivals| {
      assert arrivals[..k] == arrivals;
    } else {
      assert arrivals[..|arrivals| - 1][..k] == arrivals[..k];
      StaysAgreed(f, arrivals[..|arrivals| - 1], k);
    }
  }
}
