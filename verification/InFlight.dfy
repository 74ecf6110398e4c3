/** CheckInFlight: from a quorum of view data, decide whether some proposal may already have been decided. */
module InFlight {
  import opened Messages

  /** Outcome of the check: a panic on an unreadable last decision, an error on unreadable in-flight metadata,
      or the verdict: a proposal to decide (condition A), nothing in flight (condition B), or neither. */
  datatype Outcome = Panic | Error | Agreed(p: Proposal) | NoInFlight | NotOk

  predicate ReadableDecision(vd: ViewData) {
    vd.lastDecision.Some? && !vd.lastDecision.value.metadata.Malformed?
  }

  predicate ReadableInFlight(vd: ViewData) {
    vd.inFlightProposal.Some? ==> vd.inFlightProposal.value.metadata.Encoded?
  }

  // ---- what the counters mean ----

  datatype Question =
    | Supports(p: Proposal)       // holds p at the expected sequence
    | DoesNotArgue(p: Proposal)   // holds nothing at the expected sequence, or p
    | HasNoPrepared               // holds nothing prepared at the expected sequence

  predicate Holds(vd: ViewData, expected: nat) {
    vd.inFlightProposal.Some? && vd.inFlightProposal.value.Sequence() == expected
  }

  predicate Yes(q: Question, expected: nat, vd: ViewData) {
    match q
    case Supports(p) => Holds(vd, expected) && vd.inFlightProposal.value == p
    case DoesNotArgue(p) => Holds(vd, expected) ==> vd.inFlightProposal.value == p
    case HasNoPrepared => !(Holds(vd, expected) && vd.inFlightPrepared)
  }

  function Count(messages: seq<ViewData>, q: Question, expected: nat): nat {
    if messages == [] then 0
    else Count(messages[..|messages| - 1], q, expected) + (if Yes(q, expected, messages[|messages| - 1]) then 1 else 0)
  }

  function MaxLastSequence(messages: seq<ViewData>): (max: nat)
    ensures forall k :: 0 <= k < |messages| ==> messages[k].LastSequence() <= max
    ensures max == 0 || exists k :: 0 <= k < |messages| && messages[k].LastSequence() == max
  {
    if messages == [] then 0
    else
      var before := MaxLastSequence(messages[..|messages| - 1]);
      var last := messages[|messages| - 1].LastSequence();
      if last > before then last else before
  }

  function Expected(messages: seq<ViewData>): nat {
    MaxLastSequence(messages) + 1
  }

  /** Some message reports p as prepared at the expected sequence. */
  ghost predicate Possible(messages: seq<ViewData>, expected: nat, p: Proposal) {
    exists k :: 0 <= k < |messages| && Yes(Supports(p), expected, messages[k]) && messages[k].inFlightPrepared
  }

  /** Conditions A2 and A1: f + 1 nodes hold p, and a quorum does not argue against it. */
  predicate Backed(messages: seq<ViewData>, f: nat, quorum: nat, expected: nat, p: Proposal) {
    Count(messages, Supports(p), expected) >= f + 1 && Count(messages, DoesNotArgue(p), expected) >= quorum
  }

  ghost predicate Qualifies(messages: seq<ViewData>, f: nat, quorum: nat, p: Proposal) {
    var e := Expected(messages);
    Possible(messages, e, p) && Backed(messages, f, quorum, e, p)
  }

  /** The distinct prepared proposals at the expected sequence, in order of first report. */
  function PossibleProposals(messages: seq<ViewData>, expected: nat): (ps: seq<Proposal>)
    ensures forall p :: p in ps <==> Possible(messages, expected, p)
  {
    if messages == [] then []
    else
      var before := PossibleProposals(messages[..|messages| - 1], expected);
      var last := messages[|messages| - 1];
      assert forall p :: Possible(messages, expected, p) <==>
               Possible(messages[..|messages| - 1], expected, p)
                   || (Yes(Supports(p), expected, last) && last.inFlightPrepared) by {
        assert messages == messages[..|messages| - 1] + [last];
      }
      if Holds(last, expected) && last.inFlightPrepared && last.inFlightProposal.value !in before
      then before + [last.inFlightProposal.value] else before
  }

  function FirstBacked(ps: seq<Proposal>, messages: seq<ViewData>, f: nat, quorum: nat,
      expected: nat): (r: Option<Proposal>)
    ensures r.Some? ==> r.value in ps && Backed(messages, f, quorum, expected, r.value)
    ensures r.None? ==> forall p :: p in ps ==> !Backed(messages, f, quorum, expected, p)
  {
    if ps == [] then None
    else if Backed(messages, f, quorum, expected, ps[0]) then Some(ps[0])
    else FirstBacked(ps[1..], messages, f, quorum, expected)
  }

  function Verdict(agreed: Option<Proposal>, noInFlightCount: nat, quorum: nat): Outcome {
    if agreed.Some? then Agreed(agreed.value) else if noInFlightCount >= quorum then NoInFlight else NotOk
  }

  /** The check as a function of the messages: condition A if some proposal qualifies, else condition B if it holds. */
  function Answer(messages: seq<ViewData>, f: nat, quorum: nat): (a: Outcome)
    ensures a.Panic? <==> exists k :: 0 <= k < |messages| && !ReadableDecision(messages[k])
    ensures a.Error? <==> && (forall k :: 0 <= k < |messages| ==> ReadableDecision(messages[k]))
                          && (exists k :: 0 <= k < |messages| && !ReadableInFlight(messages[k]))
    ensures a.Agreed? ==> Qualifies(messages, f, quorum, a.p)
    ensures a.NoInFlight? || a.NotOk? ==> forall p :: !Qualifies(messages, f, quorum, p)
    ensures a.NoInFlight? ==> Count(messages, HasNoPrepared, Expected(messages)) >= quorum
    ensures a.NotOk? ==> Count(messages, HasNoPrepared, Expected(messages)) < quorum
  {
    if !forall k :: 0 <= k < |messages| ==> ReadableDecision(messages[k]) then Panic
    else if !forall k :: 0 <= k < |messages| ==> ReadableInFlight(messages[k]) then Error
    else
      Verdict(FirstBacked(PossibleProposals(messages, Expected(messages)), messages, f, quorum, Expected(messages)),
              Count(messages, HasNoPrepared, Expected(messages)), quorum)
  }

  // ---- the loops of the source ----

  datatype PossibleProposal = PossibleProposal(proposal: Proposal, preprepared: nat, noArgument: nat)

  function Names(possible: seq<PossibleProposal>): seq<Proposal> {
    seq(|possible|, k requires 0 <= k < |possible| => possible[k].proposal)
  }

  /** The sequence one message reports; a message the code cannot read makes it panic. */
  method ReportedSequence(vd: ViewData) returns (n: nat, panic: bool)
    ensures panic <==> !ReadableDecision(vd)
    ensures !panic ==> n == vd.LastSequence()
  {
    if vd.lastDecision.None? {
      return 0, true;
    }
    if vd.lastDecision.value.metadata.Absent? {
      return 0, false;
    }
    if vd.lastDecision.value.metadata.Malformed? {
      return 0, true;
    }
    return vd.lastDecision.value.metadata.md.latestSequence, false;
  }

  lemma {:induction false} MaxOfOneMore(messages: seq<ViewData>, i: nat)
    requires i < |messages|
    ensures var max, last := MaxLastSequence(messages[..i]), messages[i].LastSequence();
            MaxLastSequence(messages[..i + 1]) == if last > max then last else max
  {
    assert messages[..i + 1][..i] == messages[..i];
  }

  method MaxLastDecisionSequence(messages: seq<ViewData>) returns (max: nat, panic: bool)
    ensures panic <==> exists k :: 0 <= k < |messages| && !ReadableDecision(messages[k])
    ensures !panic ==> max == MaxLastSequence(messages)
  {
    max, panic := 0, false;
    for i := 0 to |messages|
      invariant forall k :: 0 <= k < i ==> ReadableDecision(messages[k])
      invariant !panic && max == MaxLastSequence(messages[..i])
    {
      MaxOfOneMore(messages, i);
      var n, unreadable := ReportedSequence(messages[i]);
      if unreadable {
        return 0, true;
      }
      if n > max {
        max := n;
      }
    }
    assert messages[..|messages|] == messages;
  }

  method IsPossible(possible: seq<PossibleProposal>, p: Proposal) returns (found: bool)
    ensures found <==> p in Names(possible)
  {
    for j := 0 to |possible|
      invariant forall k :: 0 <= k < j ==> possible[k].proposal != p
    {
      if possible[j].proposal == p {
        assert Names(possible)[j] == p;
        return true;
      }
    }
    return false;
  }

  /** First pass: the distinct prepared proposals at the expected sequence, and how many messages report none. */
  method CollectPossible(messages: seq<ViewData>, expected: nat)
    returns (possible: seq<PossibleProposal>, noInFlightCount: nat, err: bool)
    ensures err <==> exists k :: 0 <= k < |messages| && !ReadableInFlight(messages[k])
    ensures !err ==> Names(possible) == PossibleProposals(messages, expected)
    ensures !err ==> forall k :: 0 <= k < |possible| ==> possible[k].preprepared == possible[k].noArgument == 0
    ensures !err ==> noInFlightCount == Count(messages, HasNoPrepared, expected)
  {
    possible, noInFlightCount, err := [], 0, false;
    for i := 0 to |messages|
      invariant !err && forall k :: 0 <= k < i ==> ReadableInFlight(messages[k])
      invariant Names(possible) == PossibleProposals(messages[..i], expected)
      invariant forall k :: 0 <= k < |possible| ==> possible[k].preprepared == possible[k].noArgument == 0
      invariant noInFlightCount == Count(messages[..i], HasNoPrepared, expected)
    {
      var vd := messages[i];
      assert messages[..i + 1][..i] == messages[..i];
      if vd.inFlightProposal.None? {
        noInFlightCount := noInFlightCount + 1;
        continue;
      }
      if !vd.inFlightProposal.value.metadata.Encoded? {
        return [], 0, true;
      }
      if vd.inFlightProposal.value.metadata.md.latestSequence != expected {
        noInFlightCount := noInFlightCount + 1;
        continue;
      }
      if !vd.inFlightPrepared {
        noInFlightCount := noInFlightCount + 1;
        continue;
      }
      var alreadyExists := IsPossible(possible, vd.inFlightProposal.value);
      if !alreadyExists {
        ghost var before := possible;
        possible := possible + [PossibleProposal(vd.inFlightProposal.value, 0, 0)];
        assert Names(possible) == Names(before) + [vd.inFlightProposal.value];
      }
    }
    assert messages[..|messages|] == messages;
  }

  /** What one message adds to the counters of one possible proposal. */
  function Bumped(p: PossibleProposal, vd: ViewData, expected: nat): PossibleProposal {
    p.(preprepared := p.preprepared + (if Yes(Supports(p.proposal), expected, vd) then 1 else 0),
       noArgument := p.noArgument + (if Yes(DoesNotArgue(p.proposal), expected, vd) then 1 else 0))
  }

  method BumpAll(possible: seq<PossibleProposal>, vd: ViewData, expected: nat) returns (bumped: seq<PossibleProposal>)
    requires ReadableInFlight(vd)
    ensures |bumped| == |possible|
    ensures forall k :: 0 <= k < |possible| ==> bumped[k] == Bumped(possible[k], vd, expected)
  {
    bumped := possible;
    for j := 0 to |possible|
      invariant |bumped| == |possible|
      invariant forall k :: 0 <= k < j ==> bumped[k] == Bumped(possible[k], vd, expected)
      invariant forall k :: j <= k < |possible| ==> bumped[k] == possible[k]
    {
      if vd.inFlightProposal.None? {
        bumped := bumped[j := bumped[j].(noArgument := bumped[j].noArgument + 1)];
        continue;
      }
      if vd.inFlightProposal.value.metadata.md.latestSequence != expected {
        bumped := bumped[j := bumped[j].(noArgument := bumped[j].noArgument + 1)];
        continue;
      }
      if vd.inFlightProposal.value == bumped[j].proposal {
        bumped := bumped[j := bumped[j].(noArgument := bumped[j].noArgument + 1,
            preprepared := bumped[j].preprepared + 1)];
      }
    }
  }

  /** Second pass: both counters of every possible proposal. */
  method FillCounters(messages: seq<ViewData>, expected: nat, empty: seq<PossibleProposal>)
    returns (possible: seq<PossibleProposal>)
    requires forall k :: 0 <= k < |messages| ==> ReadableInFlight(messages[k])
    requires forall k :: 0 <= k < |empty| ==> empty[k].preprepared == empty[k].noArgument == 0
    ensures Names(possible) == Names(empty)
    ensures forall k :: 0 <= k < |possible| ==>
              && possible[k].preprepared == Count(messages, Supports(possible[k].proposal), expected)
              && possible[k].noArgument == Count(messages, DoesNotArgue(possible[k].proposal), expected)
  {
    possible := empty;
    for i := 0 to |messages|
      invariant |possible| == |empty|
      invariant forall k :: 0 <= k < |possible| ==>
                  && possible[k].proposal == empty[k].proposal
                  && possible[k].preprepared == Count(messages[..i], Supports(possible[k].proposal), expected)
                  && possible[k].noArgument == Count(messages[..i], DoesNotArgue(possible[k].proposal), expected)
    {
      assert messages[..i + 1][..i] == messages[..i];
      possible := BumpAll(possible, messages[i], expected);
    }
    assert messages[..|messages|] == messages;
  }

  lemma {:induction false} SkipUnbacked(ps: seq<Proposal>, messages: seq<ViewData>, f: nat, quorum: nat, expected: nat,
      k: nat)
    requires k <= |ps| && forall j :: 0 <= j < k ==> !Backed(messages, f, quorum, expected, ps[j])
    ensures FirstBacked(ps, messages, f, quorum, expected) == FirstBacked(ps[k..], messages, f, quorum, expected)
    decreases k
  {
    if k > 0 {
      SkipUnbacked(ps[1..], messages, f, quorum, expected, k - 1);
      assert ps[1..][k - 1..] == ps[k..];
    } else {
      assert ps[0..] == ps;
    }
  }

  /** The first possible proposal for which conditions A2 and A1 hold, by its index, or -1. */
  method FindAgreed(possible: seq<PossibleProposal>, f: nat,
      quorum: nat, ghost messages: seq<ViewData>, ghost expected: nat)
    returns (agreed: int)
    requires forall k :: 0 <= k < |possible| ==>
               && possible[k].preprepared == Count(messages, Supports(possible[k].proposal), expected)
               && possible[k].noArgument == Count(messages, DoesNotArgue(possible[k].proposal), expected)
    ensures -1 <= agreed < |possible|
    ensures FirstBacked(Names(possible), messages, f, quorum, expected)
            == if agreed == -1 then None else Some(possible[agreed].proposal)
  {
    agreed := -1;
    for i := 0 to |possible|
      invariant agreed == -1
      invariant forall j :: 0 <= j < i ==> !Backed(messages, f, quorum, expected, Names(possible)[j])
    {
      if possible[i].preprepared < f + 1 {
        continue;
      }
      if possible[i].noArgument < quorum {
        continue;
      }
      SkipUnbacked(Names(possible), messages, f, quorum, expected, i);
      return i;
    }
  }

  method CheckInFlight(messages: seq<ViewData>, f: nat, quorum: nat) returns (r: Outcome)
    ensures r == Answer(messages, f, quorum)
  {
    var max, panic := MaxLastDecisionSequence(messages);
    if panic {
      return Panic;
    }
    var possible, noInFlightCount, err := CollectPossible(messages, max + 1);
    if err {
      return Error;
    }
    r := Settle(messages, f, quorum, max + 1, possible, noInFlightCount);
  }

  /** The second and third pass over the possible proposals. */
  method Settle(messages: seq<ViewData>, f: nat, quorum: nat, expected: nat, empty: seq<PossibleProposal>,
      noInFlightCount: nat)
    returns (r: Outcome)
    requires forall k :: 0 <= k < |messages| ==> ReadableInFlight(messages[k])
    requires forall k :: 0 <= k < |empty| ==> empty[k].preprepared == empty[k].noArgument == 0
    ensures r == Verdict(FirstBacked(Names(empty), messages, f, quorum, expected), noInFlightCount, quorum)
  {
    var possible := FillCounters(messages, expected, empty);
    var agreed := FindAgreed(possible, f, quorum, messages, expected);
    if agreed != -1 {
      return Agreed(possible[agreed].proposal);
    }
    if noInFlightCount >= quorum {
      return NoInFlight;
    }
    return NotOk;
  }

  // ---- at most one proposal qualifies below f + 1 + quorum messages ----

  /** A message that holds another proposal at the expected sequence argues against p. */
  lemma {:induction false} ArgumentsAddUp(messages: seq<ViewData>, expected: nat, p: Proposal, p': Proposal)
    requires p != p'
    ensures Count(messages, Supports(p'), expected) + Count(messages, DoesNotArgue(p), expected) <= |messages|
  {
    if messages != [] {
      ArgumentsAddUp(messages[..|messages| - 1], expected, p, p');
    }
  }

  lemma {:induction false} QualifyingIsUnique(messages: seq<ViewData>, f: nat, quorum: nat, p: Proposal, p': Proposal)
    requires |messages| < f + 1 + quorum
    requires Qualifies(messages, f, quorum, p) && Qualifies(messages, f, quorum, p')
    ensures p == p'
  {
    if p != p' {
      ArgumentsAddUp(messages, Expected(messages), p, p');
    }
  }

  // ---- the answer in terms of who holds what ----

  /** The latest last decision any message reports, 0 if there is none. */
  ghost predicate IsLatest(messages: seq<ViewData>, last: nat) {
    && (forall k :: 0 <= k < |messages| ==> messages[k].LastSequence() <= last)
    && (last > 0 ==> exists k :: 0 <= k < |messages| && messages[k].LastSequence() == last)
  }

  /** The message holds p in flight, and p is right after the latest decision. */
  ghost predicate HoldsAfter(vd: ViewData, last: nat, p: Proposal) {
    vd.inFlightProposal == Some(p) && p.Sequence() == last + 1
  }

  /** The messages that hold p right after the latest decision. */
  ghost function Holders(messages: seq<ViewData>, last: nat, p: Proposal): set<nat> {
    set k | 0 <= k < |messages| && HoldsAfter(messages[k], last, p)
  }

  /** The messages that hold something else there. */
  ghost function Dissenters(messages: seq<ViewData>, last: nat, p: Proposal): set<nat> {
    set k | && 0 <= k < |messages| && messages[k].inFlightProposal.Some?
            && messages[k].inFlightProposal.value != p && messages[k].inFlightProposal.value.Sequence() == last + 1
  }

  /** The messages that hold something prepared there. */
  ghost function PreparedAfter(messages: seq<ViewData>, last: nat): set<nat> {
    set k | && 0 <= k < |messages| && messages[k].inFlightProposal.Some? && messages[k].inFlightPrepared
            && messages[k].inFlightProposal.value.Sequence() == last + 1
  }

  /** At least f + 1 hold p, and so few hold something else that a quorum does not. */
  ghost predicate Supported(messages: seq<ViewData>, f: nat, quorum: nat, last: nat, p: Proposal) {
    |Holders(messages, last, p)| >= f + 1 && |Dissenters(messages, last, p)| + quorum <= |messages|
  }

  /** The answers of all messages to a question, and where they are yes or no. */
  function Answers(messages: seq<ViewData>, q: Question, expected: nat): seq<bool> {
    seq(|messages|, k requires 0 <= k < |messages| => Yes(q, expected, messages[k]))
  }

  ghost function Where(answers: seq<bool>, yes: bool): set<nat> {
    set k | 0 <= k < |answers| && answers[k] == yes
  }

  lemma {:induction false} OneMoreAnswer(answers: seq<bool>, yes: bool)
    requires answers != []
    ensures |Where(answers, yes)|
            == |Where(answers[..|answers| - 1], yes)| + (if answers[|answers| - 1] == yes then 1 else 0)
  {
    var n := |answers| - 1;
    if answers[n] == yes {
      assert Where(answers, yes) == Where(answers[..n], yes) + {n};
    } else {
      assert Where(answers, yes) == Where(answers[..n], yes);
    }
  }

  lemma {:induction false} CountIsWhere(messages: seq<ViewData>, q: Question, expected: nat)
    ensures |Where(Answers(messages, q, expected), true)| == Count(messages, q, expected)
    ensures |Where(Answers(messages, q, expected), false)| == |messages| - Count(messages, q, expected)
  {
    var answers := Answers(messages, q, expected);
    if messages == [] {
      assert Where(answers, true) == {};
      assert Where(answers, false) == {};
    } else {
      CountIsWhere(messages[..|messages| - 1], q, expected);
      assert answers[..|messages| - 1] == Answers(messages[..|messages| - 1], q, expected);
      OneMoreAnswer(answers, true);
      OneMoreAnswer(answers, false);
    }
  }

  lemma {:induction false} LatestIsMax(messages: seq<ViewData>, last: nat)
    requires IsLatest(messages, last)
    ensures MaxLastSequence(messages) == last
  {
  }

  lemma {:induction false} BackedIsSupported(messages: seq<ViewData>, f: nat, quorum: nat, last: nat, p: Proposal)
    requires p.Sequence() == last + 1
    ensures Backed(messages, f, quorum, last + 1, p) <==> Supported(messages, f, quorum, last, p)
  {
    CountIsWhere(messages, Supports(p), last + 1);
    CountIsWhere(messages, DoesNotArgue(p), last + 1);
    assert Where(Answers(messages, Supports(p), last + 1), true) == Holders(messages, last, p);
    assert Where(Answers(messages, DoesNotArgue(p), last + 1), false) == Dissenters(messages, last, p);
  }

  lemma {:induction false} NoPreparedIsRest(messages: seq<ViewData>, last: nat)
    ensures Count(messages, HasNoPrepared, last + 1) == |messages| - |PreparedAfter(messages, last)|
  {
    CountIsWhere(messages, HasNoPrepared, last + 1);
    assert Where(Answers(messages, HasNoPrepared, last + 1), false) == PreparedAfter(messages, last);
  }

  /** Message k reports a supported proposal prepared right after the latest decision. */
  ghost predicate Proposes(messages: seq<ViewData>, f: nat, quorum: nat, last: nat, k: nat) {
    && k < |messages| && messages[k].inFlightPrepared && messages[k].inFlightProposal.Some?
    && messages[k].inFlightProposal.value.Sequence() == last + 1
    && Supported(messages, f, quorum, last, messages[k].inFlightProposal.value)
  }

  /** The first message to do so. */
  ghost predicate ProposesFirst(messages: seq<ViewData>, f: nat, quorum: nat, last: nat, k: nat) {
    Proposes(messages, f, quorum, last, k) && forall j: nat :: j < k ==> !Proposes(messages, f, quorum, last, j)
  }

  lemma {:induction false} FirstBackedSnoc(ps: seq<Proposal>, p: Proposal, messages: seq<ViewData>, f: nat, quorum: nat,
      expected: nat)
    ensures var before := FirstBacked(ps, messages, f, quorum, expected);
            FirstBacked(ps + [p], messages, f, quorum, expected)
            == if before.Some? then before else if Backed(messages, f, quorum, expected, p) then Some(p) else None
  {
    if ps != [] {
      FirstBackedSnoc(ps[1..], p, messages, f, quorum, expected);
      assert (ps + [p])[1..] == ps[1..] + [p];
    } else {
      assert (ps + [p])[1..] == [];
    }
  }

  /** What looking at the first n messages finds. */
  lemma {:induction false} FoundInPrefix(messages: seq<ViewData>, f: nat, quorum: nat, last: nat, n: nat)
    requires n <= |messages|
    ensures var r := FirstBacked(PossibleProposals(messages[..n], last + 1), messages, f, quorum, last + 1);
            && (r.Some? ==> exists k: nat :: k < n && ProposesFirst(messages, f, quorum, last, k)
                                          && messages[k].inFlightProposal == r)
            && (r.None? ==> forall k: nat :: k < n ==> !Proposes(messages, f, quorum, last, k))
  {
    if n > 0 {
      FoundInPrefix(messages, f, quorum, last, n - 1);
      OneMoreFound(messages, f, quorum, last, n - 1);
      if Proposes(messages, f, quorum, last, n - 1) &&
         FirstBacked(PossibleProposals(messages[..n - 1], last + 1), messages, f, quorum, last + 1).None? {
        assert ProposesFirst(messages, f, quorum, last, n - 1);
      }
    }
  }

  lemma {:induction false} OneMoreFound(messages: seq<ViewData>, f: nat, quorum: nat, last: nat, n: nat)
    requires n < |messages|
    ensures var before := FirstBacked(PossibleProposals(messages[..n], last + 1), messages, f, quorum, last + 1);
            var after := FirstBacked(PossibleProposals(messages[..n + 1], last + 1), messages, f, quorum, last + 1);
            after == if before.Some? then before
                     else if Proposes(messages, f, quorum, last, n) then messages[n].inFlightProposal else None
  {
    assert messages[..n + 1][..n] == messages[..n];
    var vd := messages[n];
    if vd.inFlightPrepared && Holds(vd, last + 1) {
      var p := vd.inFlightProposal.value;
      BackedIsSupported(messages, f, quorum, last, p);
      FirstBackedSnoc(PossibleProposals(messages[..n], last + 1), p, messages, f, quorum, last + 1);
    }
  }

  /** What the three passes come to. */
  function Found(messages: seq<ViewData>, f: nat, quorum: nat, expected: nat): Outcome {
    Verdict(FirstBacked(PossibleProposals(messages, expected), messages, f, quorum, expected),
            Count(messages, HasNoPrepared, expected), quorum)
  }

  /** The answer of the first message that proposes something, or else what the number of prepared ones says. */
  ghost predicate Settled(messages: seq<ViewData>, f: nat, quorum: nat, last: nat, a: Outcome) {
    || (exists k: nat :: ProposesFirst(messages, f, quorum, last, k) && a == Agreed(messages[k].inFlightProposal.value))
    || (&& (forall k: nat :: !Proposes(messages, f, quorum, last, k))
        && a == if |PreparedAfter(messages, last)| + quorum <= |messages| then NoInFlight else NotOk)
  }

  lemma {:induction false} FoundIsSettled(messages: seq<ViewData>, f: nat, quorum: nat, last: nat)
    ensures Settled(messages, f, quorum, last, Found(messages, f, quorum, last + 1))
  {
    NoPreparedIsRest(messages, last);
    FoundInPrefix(messages, f, quorum, last, |messages|);
    assert messages[..|messages|] == messages;
    var r := FirstBacked(PossibleProposals(messages, last + 1), messages, f, quorum, last + 1);
    if r.None? {
      forall k: nat ensures !Proposes(messages, f, quorum, last, k) {
        assert k < |messages| ==> !Proposes(messages, f, quorum, last, k);
      }
    }
  }

  /** What the check answers on readable messages, any number of them: the first proposal that a message reports
      prepared right after the latest decision and that is supported; with none, that nothing is in flight exactly
      when all but at most |messages| - quorum messages hold nothing prepared there. */
  lemma {:induction false} AnswerIsFirstSupported(messages: seq<ViewData>, f: nat, quorum: nat, last: nat, a: Outcome)
    requires AllReadable(messages) && IsLatest(messages, last)
    ensures Answer(messages, f, quorum) == a <==> Settled(messages, f, quorum, last, a)
  {
    AnswerIsFound(messages, f, quorum, last);
    FoundIsSettled(messages, f, quorum, last);
    if Settled(messages, f, quorum, last, a) {
      SettledOnce(messages, f, quorum, last, a, Found(messages, f, quorum, last + 1));
    }
  }

  lemma {:induction false} SettledOnce(messages: seq<ViewData>, f: nat, quorum: nat, last: nat, a: Outcome, b: Outcome)
    requires Settled(messages, f, quorum, last, a) && Settled(messages, f, quorum, last, b)
    ensures a == b
  {
    if exists k: nat :: ProposesFirst(messages, f, quorum, last, k) && a == Agreed(messages[k].inFlightProposal.value) {
      var k: nat :| ProposesFirst(messages, f, quorum, last, k) && a == Agreed(messages[k].inFlightProposal.value);
      if exists j: nat :: ProposesFirst(messages, f, quorum, last, j)
           && b == Agreed(messages[j].inFlightProposal.value) {
        var j: nat :| ProposesFirst(messages, f, quorum, last, j) && b == Agreed(messages[j].inFlightProposal.value);
        OneIsFirst(messages, f, quorum, last, k, j);
      }
    }
  }

  lemma {:induction false} OneIsFirst(messages: seq<ViewData>, f: nat, quorum: nat, last: nat, k: nat, j: nat)
    requires ProposesFirst(messages, f, quorum, last, k) && ProposesFirst(messages, f, quorum, last, j)
    ensures k == j
  {
  }

  ghost predicate AllReadable(messages: seq<ViewData>) {
    forall k :: 0 <= k < |messages| ==> ReadableDecision(messages[k]) && ReadableInFlight(messages[k])
  }

  lemma {:induction false} ReadableAnswer(messages: seq<ViewData>, f: nat, quorum: nat)
    requires AllReadable(messages)
    ensures Answer(messages, f, quorum) == Found(messages, f, quorum, Expected(messages))
  {
  }

  lemma {:induction false} AnswerIsFound(messages: seq<ViewData>, f: nat, quorum: nat, last: nat)
    requires AllReadable(messages) && IsLatest(messages, last)
    ensures Answer(messages, f, quorum) == Found(messages, f, quorum, last + 1)
  {
    LatestIsMax(messages, last);
    ReadableAnswer(messages, f, quorum);
  }

  /** With fewer than f + 1 + quorum messages the order does not come into it. */
  lemma {:induction false} AgreedExactly(messages: seq<ViewData>, f: nat, quorum: nat, last: nat, p: Proposal)
    requires AllReadable(messages) && IsLatest(messages, last) && |messages| < f + 1 + quorum
    ensures Answer(messages, f, quorum) == Agreed(p)
       <==> && (exists k :: 0 <= k < |messages| && HoldsAfter(messages[k], last, p) && messages[k].inFlightPrepared)
            && |Holders(messages, last, p)| >= f + 1
            && |Dissenters(messages, last, p)| <= |messages| - quorum
  {
    LatestIsMax(messages, last);
    if p.Sequence() == last + 1 {
      BackedIsSupported(messages, f, quorum, last, p);
    }
    var a := Answer(messages, f, quorum);
    if exists k :: 0 <= k < |messages| && HoldsAfter(messages[k], last, p) && messages[k].inFlightPrepared {
      if Supported(messages, f, quorum, last, p) {
        assert Qualifies(messages, f, quorum, p);
        QualifyingIsUnique(messages, f, quorum, a.p, p);
      }
    }
  }

  // ---- proposals at other sequences do not matter ----

  lemma {:induction false} CountPointwise(a: seq<ViewData>, b: seq<ViewData>, q: Question, expected: nat)
    requires |a| == |b| && forall k :: 0 <= k < |a| ==> Yes(q, expected, a[k]) == Yes(q, expected, b[k])
    ensures Count(a, q, expected) == Count(b, q, expected)
  {
    if a != [] {
      CountPointwise(a[..|a| - 1], b[..|b| - 1], q, expected);
    }
  }

  /** The same messages, up to what they hold at other sequences. */
  ghost predicate SameAt(a: seq<ViewData>, b: seq<ViewData>, expected: nat) {
    |a| == |b| && forall k :: 0 <= k < |a| ==> a[k] == b[k] || (!Holds(a[k], expected) && !Holds(b[k], expected))
  }

  lemma {:induction false} PossiblePointwise(a: seq<ViewData>, b: seq<ViewData>, expected: nat)
    requires SameAt(a, b, expected)
    ensures PossibleProposals(a, expected) == PossibleProposals(b, expected)
  {
    if a != [] {
      PossiblePointwise(a[..|a| - 1], b[..|b| - 1], expected);
    }
  }

  lemma {:induction false} FirstBackedPointwise(ps: seq<Proposal>, a: seq<ViewData>, b: seq<ViewData>, f: nat,
      quorum: nat, expected: nat)
    requires SameAt(a, b, expected)
    ensures FirstBacked(ps, a, f, quorum, expected) == FirstBacked(ps, b, f, quorum, expected)
  {
    if ps != [] {
      CountPointwise(a, b, Supports(ps[0]), expected);
      CountPointwise(a, b, DoesNotArgue(ps[0]), expected);
      FirstBackedPointwise(ps[1..], a, b, f, quorum, expected);
    }
  }

  /** A proposal in flight that is not right after the latest decision counts as none at all. */
  lemma {:induction false} StrayProposalIsNone(messages: seq<ViewData>, f: nat, quorum: nat, last: nat, k: nat)
    requires IsLatest(messages, last) && k < |messages|
    requires messages[k].inFlightProposal.Some? && messages[k].inFlightProposal.value.metadata.Encoded?
    requires messages[k].inFlightProposal.value.Sequence() != last + 1
    ensures Answer(messages[k := messages[k].(inFlightProposal := None)], f, quorum) == Answer(messages, f, quorum)
  {
    var b := messages[k := messages[k].(inFlightProposal := None)];
    StrayIsReadable(messages, k);
    StrayKeepsLatest(messages, k, last);
    StrayIsSame(messages, k, last + 1);
    if AllReadable(messages) {
      SameIsAnswered(messages, b, f, quorum, last);
    }
  }

  lemma {:induction false} SameIsAnswered(a: seq<ViewData>, b: seq<ViewData>, f: nat, quorum: nat, last: nat)
    requires AllReadable(a) && AllReadable(b) && IsLatest(a, last) && IsLatest(b, last) && SameAt(a, b, last + 1)
    ensures Answer(a, f, quorum) == Answer(b, f, quorum)
  {
    AnswerIsFound(a, f, quorum, last);
    AnswerIsFound(b, f, quorum, last);
    SameIsFound(a, b, f, quorum, last + 1);
  }

  lemma {:induction false} StrayIsSame(messages: seq<ViewData>, k: nat, expected: nat)
    requires k < |messages| && !Holds(messages[k], expected)
    ensures SameAt(messages, messages[k := messages[k].(inFlightProposal := None)], expected)
  {
  }

  lemma {:induction false} StrayKeepsLatest(messages: seq<ViewData>, k: nat, last: nat)
    requires IsLatest(messages, last) && k < |messages|
    ensures IsLatest(messages[k := messages[k].(inFlightProposal := None)], last)
  {
    var b := messages[k := messages[k].(inFlightProposal := None)];
    assert forall j :: 0 <= j < |b| ==> b[j].LastSequence() == messages[j].LastSequence();
    if last > 0 {
      var j :| 0 <= j < |messages| && messages[j].LastSequence() == last;
      assert b[j].LastSequence() == last;
    }
  }

  lemma {:induction false} SameIsFound(a: seq<ViewData>, b: seq<ViewData>, f: nat, quorum: nat, expected: nat)
    requires SameAt(a, b, expected)
    ensures Found(a, f, quorum, expected) == Found(b, f, quorum, expected)
  {
    PossiblePointwise(a, b, expected);
    FirstBackedPointwise(PossibleProposals(b, expected), a, b, f, quorum, expected);
    CountPointwise(a, b, HasNoPrepared, expected);
  }

  lemma {:induction false} StrayIsReadable(messages: seq<ViewData>, k: nat)
    requires k < |messages| && ReadableInFlight(messages[k])
    ensures var b := messages[k := messages[k].(inFlightProposal := None)];
            && (AllReadable(messages) <==> AllReadable(b))
            && ((exists j :: 0 <= j < |b| && !ReadableDecision(b[j]))
                <==> exists j :: 0 <= j < |messages| && !ReadableDecision(messages[j]))
            && ((exists j :: 0 <= j < |b| && !ReadableInFlight(b[j]))
                <==> exists j :: 0 <= j < |messages| && !ReadableInFlight(messages[j]))
  {
    var b := messages[k := messages[k].(inFlightProposal := None)];
    assert forall j :: 0 <= j < |b| ==>
             ReadableDecision(b[j]) == ReadableDecision(messages[j])
                 && ReadableInFlight(b[j]) == ReadableInFlight(messages[j]);
  }

  // ---- the answer does not depend on the order of the messages ----

  function Without(messages: seq<ViewData>, k: nat): seq<ViewData>
    requires k < |messages|
  {
    messages[..k] + messages[k + 1..]
  }

  lemma {:induction false} CountOfSum(a: seq<ViewData>, b: seq<ViewData>, q: Question, expected: nat)
    ensures Count(a + b, q, expected) == Count(a, q, expected) + Count(b, q, expected)
  {
    if b == [] {
      assert a + b == a;
    } else {
      CountOfSum(a, b[..|b| - 1], q, expected);
      assert (a + b)[..|a + b| - 1] == a + b[..|b| - 1];
    }
  }

  lemma {:induction false} CountWithout(messages: seq<ViewData>, k: nat, q: Question, expected: nat)
    requires k < |messages|
    ensures Count(messages, q, expected) == Count(Without(messages, k), q, expected)
            + (if Yes(q, expected, messages[k]) then 1 else 0)
  {
    var before, after := messages[..k], messages[k + 1..];
    assert messages == before + ([messages[k]] + after);
    CountOfSum(before, [messages[k]] + after, q, expected);
    CountOfSum([messages[k]], after, q, expected);
    CountOfSum(before, after, q, expected);
    assert [messages[k]][..0] == [];
  }

  lemma {:induction false} MultisetWithout(messages: seq<ViewData>, k: nat)
    requires k < |messages|
    ensures multiset(Without(messages, k)) == multiset(messages) - multiset{messages[k]}
  {
    assert messages == messages[..k] + [messages[k]] + messages[k + 1..];
  }

  lemma {:induction false} CountOfPermutation(a: seq<ViewData>, b: seq<ViewData>, q: Question, expected: nat)
    requires multiset(a) == multiset(b)
    ensures Count(a, q, expected) == Count(b, q, expected)
    decreases |a|
  {
    assert |a| == |multiset(a)| && |b| == |multiset(b)|;
    if a != [] {
      SameMembers(a, b);
      var j := |a| - 1;
      var k :| 0 <= k < |b| && b[k] == a[j];
      MultisetWithout(a, j);
      MultisetWithout(b, k);
      CountOfPermutation(Without(a, j), Without(b, k), q, expected);
      CountWithout(a, j, q, expected);
      CountWithout(b, k, q, expected);
    }
  }

  lemma {:induction false} SameMembers(a: seq<ViewData>, b: seq<ViewData>)
    requires multiset(a) == multiset(b)
    ensures forall k :: 0 <= k < |a| ==> a[k] in b
  {
    forall k | 0 <= k < |a| ensures a[k] in b {
      assert a[k] in multiset(a);
    }
  }

  lemma {:induction false} QualifiesInPermutation(a: seq<ViewData>, b: seq<ViewData>, f: nat, quorum: nat, p: Proposal)
    requires multiset(a) == multiset(b) && Qualifies(a, f, quorum, p)
    ensures Expected(a) == Expected(b) && Qualifies(b, f, quorum, p)
  {
    ExpectedOfPermutation(a, b);
    SameMembers(a, b);
    CountOfPermutation(a, b, Supports(p), Expected(a));
    CountOfPermutation(a, b, DoesNotArgue(p), Expected(a));
  }

  lemma {:induction false} ExpectedOfPermutation(a: seq<ViewData>, b: seq<ViewData>)
    requires multiset(a) == multiset(b)
    ensures Expected(a) == Expected(b)
  {
    SameMembers(a, b);
    SameMembers(b, a);
  }

  lemma {:induction false} ReadableInPermutation(a: seq<ViewData>, b: seq<ViewData>)
    requires multiset(a) == multiset(b)
    ensures (forall k :: 0 <= k < |a| ==> ReadableDecision(a[k]))
            ==> (forall k :: 0 <= k < |b| ==> ReadableDecision(b[k]))
    ensures (forall k :: 0 <= k < |a| ==> ReadableInFlight(a[k]))
            ==> (forall k :: 0 <= k < |b| ==> ReadableInFlight(b[k]))
  {
    SameMembers(b, a);
  }

  /** With fewer than f + 1 + quorum messages, every order of the same messages gets the same answer. */
  lemma {:induction false} AnswerOfPermutation(a: seq<ViewData>, b: seq<ViewData>, f: nat, quorum: nat)
    requires multiset(a) == multiset(b) && |a| < f + 1 + quorum
    ensures Answer(a, f, quorum) == Answer(b, f, quorum)
  {
    ReadableInPermutation(a, b);
    ReadableInPermutation(b, a);
    ExpectedOfPermutation(a, b);
    CountOfPermutation(a, b, HasNoPrepared, Expected(a));
    var ra, rb := Answer(a, f, quorum), Answer(b, f, quorum);
    if ra.Agreed? {
      QualifiesInPermutation(a, b, f, quorum, ra.p);
    }
    if rb.Agreed? {
      QualifiesInPermutation(b, a, f, quorum, rb.p);
    }
    if ra.Agreed? && rb.Agreed? {
      QualifyingIsUnique(a, f, quorum, ra.p, rb.p);
    }
  }

  // ---- and from f + 1 + quorum messages on it does ----

  function Genesis(): Proposal {
    Proposal([], [], Absent, 0)
  }

  function Sample(header: Bytes): Proposal {
    Proposal(header, [], Encoded(ViewMetadata(0, 1, 0, [], [])), 0)
  }

  function Report(p: Option<Proposal>): ViewData {
    ViewData(1, Some(Genesis()), [], p, true)
  }

  function Copies(vd: ViewData, n: nat): seq<ViewData> {
    seq(n, _ => vd)
  }

  function Mixed(x: Proposal, y: Proposal, f: nat, m: nat): (messages: seq<ViewData>)
    requires m >= 2 * (f + 1)
    ensures |messages| == m
  {
    Copies(Report(Some(x)), f + 1) + Copies(Report(Some(y)), f + 1) + Copies(Report(None), m - 2 * (f + 1))
  }

  lemma {:induction false} CountOfCopies(vd: ViewData, n: nat, q: Question, expected: nat)
    ensures Count(Copies(vd, n), q, expected) == if Yes(q, expected, vd) then n else 0
  {
    if n > 0 {
      CountOfCopies(vd, n - 1, q, expected);
      assert Copies(vd, n)[..n - 1] == Copies(vd, n - 1);
    }
  }

  lemma {:induction false} CountInMixed(x: Proposal, y: Proposal, f: nat, m: nat, q: Question)
    requires m >= 2 * (f + 1)
    ensures Count(Mixed(x, y, f, m), q, 1)
            == (if Yes(q, 1, Report(Some(x))) then f + 1 else 0) + (if Yes(q, 1, Report(Some(y))) then f + 1 else 0)
               + (if Yes(q, 1, Report(None)) then m - 2 * (f + 1) else 0)
  {
    var a, b, c := Copies(Report(Some(x)), f + 1), Copies(Report(Some(y)), f + 1),
        Copies(Report(None), m - 2 * (f + 1));
    CountOfSum(a + b, c, q, 1);
    CountOfSum(a, b, q, 1);
    CountOfCopies(Report(Some(x)), f + 1, q, 1);
    CountOfCopies(Report(Some(y)), f + 1, q, 1);
    CountOfCopies(Report(None), m - 2 * (f + 1), q, 1);
  }

  /** The first message decides which possible proposal is looked at first. */
  lemma {:induction false} FirstReportLeads(messages: seq<ViewData>, expected: nat)
    requires messages != [] && Holds(messages[0], expected) && messages[0].inFlightPrepared
    ensures PossibleProposals(messages, expected) != []
    ensures PossibleProposals(messages, expected)[0] == messages[0].inFlightProposal.value
  {
    if |messages| > 1 {
      FirstReportLeads(messages[..|messages| - 1], expected);
    } else {
      assert messages[..0] == [];
    }
  }

  lemma {:induction false} MixedAgreesOnFirst(x: Proposal, y: Proposal, f: nat, quorum: nat, m: nat)
    requires x != y && x.metadata.Encoded? && y.metadata.Encoded? && x.Sequence() == y.Sequence() == 1
    requires quorum > f && m >= f + 1 + quorum
    ensures Answer(Mixed(x, y, f, m), f, quorum) == Agreed(x)
  {
    var messages := Mixed(x, y, f, m);
    assert forall k :: 0 <= k < |messages| ==> messages[k].LastSequence() == 0;
    assert messages[0] == Report(Some(x));
    FirstReportLeads(messages, 1);
    CountInMixed(x, y, f, m, Supports(x));
    CountInMixed(x, y, f, m, DoesNotArgue(x));
    assert Backed(messages, f, quorum, 1, x);
  }

  /** The bound is exact: for every larger number of messages there are two orders of the same messages on which the
      check settles on different proposals. A cluster of 3f + 3 nodes can produce that many. */
  lemma {:induction false} OrderMattersFrom(f: nat, quorum: nat, m: nat) returns (a: seq<ViewData>, b: seq<ViewData>)
    requires quorum > f && m >= f + 1 + quorum
    ensures |a| == m && multiset(a) == multiset(b)
    ensures Answer(a, f, quorum) != Answer(b, f, quorum)
  {
    var x, y := Sample([0]), Sample([1]);
    a, b := Mixed(x, y, f, m), Mixed(y, x, f, m);
    assert x.header[0] != y.header[0];
    MixedAgreesOnFirst(x, y, f, quorum, m);
    MixedAgreesOnFirst(y, x, f, quorum, m);
  }
}
