/** What a replica saves before it votes, and how a view is rebuilt from the log after a crash. */
module Recovery {
  import opened Messages
  import opened Replica
  import opened Consensus
  import WalFormat
  import WalModel
  import WalLog
  import WalRecovery

  datatype Saved =
    | ProposedRecord(prePrepare: Message, prepare: Message)
    | CommitRecord(commit: Message)
    | NewViewRecord
    | ViewChangeRecord
    | Unrecognized

  /** PersistedState.Save on the log: only a proposal is a truncation point. */
  function Save(entries: seq<Saved>, s: Saved): seq<Saved> {
    (if s.ProposedRecord? then [] else entries) + [s]
  }

  /** storeProposal and storePrepared. */
  function Track(inFlight: Option<InFlightData>, s: Saved): Option<InFlightData> {
    match s
    case ProposedRecord(PrePrepare(_, _, Some(p), _), _) => Some(InFlightData(p, false))
    case CommitRecord(_) => if inFlight.Some? then Some(InFlightData(inFlight.value.proposal, true)) else None
    case _ => inFlight
  }

  // ---- restoring ----

  datatype Restored = Restored(view: View, inFlight: Option<InFlightData>) | Refused

  /** The parts that recoverProposed and recoverPrepared share; the proposal metadata must decode. */
  function AtProposal(v: View, pp: Message, phase: Phase, vote: Message): Option<View> {
    if !pp.PrePrepare? || pp.proposal.None? then None
    else
      var md := pp.proposal.value.metadata.Decode();
      if md.None? then None
      else Some(v.(inFlight := pp.proposal, lastBroadcast := Some(vote), phase := phase,
                   cfg := v.cfg.(number := pp.view),
                   sequence := pp.sequence, decisionsInView := md.value.decisionsInView))
  }

  function RestoreProposed(v: View, s: Saved): Restored
    requires s.ProposedRecord?
  {
    var r := AtProposal(v, s.prePrepare, PROPOSED, s.prepare);
    if r.None? then Refused else Restored(r.value, Track(None, s))
  }

  function RestorePrepared(v: View, entries: seq<Saved>): Restored
    requires entries != [] && entries[|entries| - 1].CommitRecord?
  {
    if |entries| < 2 || !entries[|entries| - 2].ProposedRecord? || !entries[|entries| - 2].prePrepare.PrePrepare?
    then Refused
    else
      var pp, commit := entries[|entries| - 2].prePrepare, entries[|entries| - 1].commit;
      if v.sequence < pp.sequence then Refused
      else if v.sequence > pp.sequence then Restored(v, None)
      else
        var r := AtProposal(v, pp, PREPARED, commit);
        if r.None? || !commit.Commit? then Refused
        else Restored(r.value.(mySignature := commit.signature),
            Track(Track(None, entries[|entries| - 2]), entries[|entries| - 1]))
  }

  /** PersistedState.Restore on a fresh view. */
  function Restore(v: View, entries: seq<Saved>): Restored {
    if entries == [] then Restored(v, None)
    else
      match entries[|entries| - 1]
      case ProposedRecord(_, _) => RestoreProposed(v, entries[|entries| - 1])
      case CommitRecord(_) => RestorePrepared(v, entries)
      case NewViewRecord => Restored(v, None)
      case ViewChangeRecord => Restored(v, None)
      case Unrecognized => Refused
  }

  /** NewProposer on the first view after a start: restored from the log, then moved up to the sequence and the view
      number asked for if the log is behind them. */
  function FirstView(cfg: Config, sequence: nat, decisionsInView: nat, entries: seq<Saved>): Restored {
    var r := Restore(NewView(cfg, sequence, decisionsInView), entries);
    if r.Refused? then r
    else
      var v := if sequence > r.view.sequence then r.view.(sequence := sequence, decisionsInView := decisionsInView)
          else r.view;
      var v' := if cfg.number > v.cfg.number
                then v.(cfg := v.cfg.(number := cfg.number), decisionsInView := decisionsInView) else v;
      Restored(v', r.inFlight)
  }

  /** The object a view saves to: the in-flight data, the log, and the entries the log held when the node started. */
  class PersistedState {
    var inFlight: Option<InFlightData>
    var wal: seq<Saved>
    const entries: seq<Saved>

    constructor (entries: seq<Saved>)
      ensures inFlight == None && wal == entries && this.entries == entries
    {
      inFlight, wal, this.entries := None, entries, entries;
    }

    /** Saving a commit without a proposal in flight is a programming error, which the source answers with a panic. */
    method SaveMessage(s: Saved)
      requires s.CommitRecord? ==> inFlight.Some?
      requires s.ProposedRecord? ==> s.prePrepare.PrePrepare? && s.prePrepare.proposal.Some?
      modifies this
      ensures wal == Save(old(wal), s) && inFlight == Track(old(inFlight), s)
    {
      if s.ProposedRecord? {
        inFlight := Some(InFlightData(s.prePrepare.proposal.value, false));
      }
      if s.CommitRecord? {
        inFlight := Some(InFlightData(inFlight.value.proposal, true));
      }
      if s.ProposedRecord? {
        wal := [s];
      } else {
        wal := wal + [s];
      }
    }

    method RecoverProposed(v: View, s: Saved) returns (r: Restored)
      requires s.ProposedRecord? && inFlight.None?
      modifies this`inFlight
      ensures r == RestoreProposed(v, s) && (r.Restored? ==> inFlight == r.inFlight)
    {
      var pp := s.prePrepare;
      if !pp.PrePrepare? || pp.proposal.None? || pp.proposal.value.metadata.Decode().None? {
        return Refused;
      }
      inFlight := Some(InFlightData(pp.proposal.value, false));
      var dec := pp.proposal.value.metadata.Decode().value.decisionsInView;
      r := Restored(v.(inFlight := pp.proposal, lastBroadcast := Some(s.prepare), phase := PROPOSED,
                       cfg := v.cfg.(number := pp.view), sequence := pp.sequence, decisionsInView := dec), inFlight);
    }

    method RecoverPrepared(v: View) returns (r: Restored)
      requires entries != [] && entries[|entries| - 1].CommitRecord? && inFlight.None?
      modifies this`inFlight
      ensures r == RestorePrepared(v, entries) && (r.Restored? ==> inFlight == r.inFlight)
    {
      var n := |entries|;
      if n < 2 || !entries[n - 2].ProposedRecord? || !entries[n - 2].prePrepare.PrePrepare? {
        return Refused;
      }
      var pp, commit := entries[n - 2].prePrepare, entries[n - 1].commit;
      if v.sequence < pp.sequence {
        return Refused;
      }
      if v.sequence > pp.sequence {
        return Restored(v, None);
      }
      if pp.proposal.None? || pp.proposal.value.metadata.Decode().None? || !commit.Commit? {
        return Refused;
      }
      inFlight := Some(InFlightData(pp.proposal.value, true));
      var dec := pp.proposal.value.metadata.Decode().value.decisionsInView;
      r := Restored(v.(inFlight := pp.proposal, lastBroadcast := Some(commit), phase := PREPARED,
                       cfg := v.cfg.(number := pp.view), sequence := pp.sequence, decisionsInView := dec,
                       mySignature := commit.signature), inFlight);
    }

    method RestoreView(v: View) returns (r: Restored)
      requires inFlight.None?
      modifies this`inFlight
      ensures r == Restore(v, entries) && (r.Restored? ==> inFlight == r.inFlight)
    {
      if entries == [] {
        return Restored(v, None);
      }
      var last := entries[|entries| - 1];
      if last.ProposedRecord? {
        r := RecoverProposed(v, last);
      } else if last.CommitRecord? {
        r := RecoverPrepared(v);
      } else if last.NewViewRecord? || last.ViewChangeRecord? {
        r := Restored(v, None);
      } else {
        r := Refused;
      }
    }
  }

  // ---- a replica with its log ----

  datatype Pledge = Pledge(sequence: nat, digest: Digest)

  /** A view, its in-flight data and log, the last sequence delivered, and every vote ever put on the wire. */
  datatype Durable = Durable(view: View, inFlight: Option<InFlightData>, wal: seq<Saved>, delivered: nat,
      cast: set<Pledge>)

  function SavedBy(v: View, e: Event): Option<Saved>
    requires WellFormed(v) && Enabled(v, e)
  {
    if AcceptsNow(v, e) then Some(ProposedRecord(v.box.prePrepare.value, PrepareMessage(v, Offered(v), false)))
    else if e.BecomePrepared? then Some(CommitRecord(CommitMessage(v, false)))
    else None
  }

  function Pledges(messages: set<Message>): set<Pledge> {
    set m | m in messages && (m.Prepare? || m.Commit?) :: Pledge(m.sequence, m.digest)
  }

  function Happens(d: Durable, e: Event): Durable
    requires WellFormed(d.view) && Enabled(d.view, e)
  {
    var saved := SavedBy(d.view, e);
    Durable(Apply(d.view, e),
            if saved.Some? then Track(d.inFlight, saved.value) else d.inFlight,
            if saved.Some? then Save(d.wal, saved.value) else d.wal,
            if e.Decide? then d.view.sequence else d.delivered,
            d.cast + Pledges(Sent(d.view, e)))
  }

  /** A restart: a new view after the last delivery, restored from the log; it starts by sending its last vote again. */
  function Restarted(d: Durable): Option<Durable> {
    var r := FirstView(d.view.cfg, d.delivered + 1, d.view.decisionsInView, d.wal);
    if r.Refused? then None else Some(Rebooted(d, r.view, r.inFlight))
  }

  function Rebooted(d: Durable, v: View, inFlight: Option<InFlightData>): Durable {
    Durable(v, inFlight, d.wal, d.delivered,
            d.cast + Pledges(if v.lastBroadcast.Some? then {v.lastBroadcast.value} else {}))
  }

  predicate EndsWithProposal(wal: seq<Saved>) {
    wal != [] && wal[|wal| - 1].ProposedRecord?
  }

  // ---- what the log remembers ----

  /** Nothing saved is still to be decided. */
  ghost predicate Settled(wal: seq<Saved>, delivered: nat) {
    || wal == []
    || wal[|wal| - 1].NewViewRecord?
    || wal[|wal| - 1].ViewChangeRecord?
    || (&& |wal| >= 2 && wal[|wal| - 1].CommitRecord? && wal[|wal| - 2].ProposedRecord?
        && wal[|wal| - 2].prePrepare.PrePrepare?
        && wal[|wal| - 2].prePrepare.sequence <= delivered)
  }

  /** A buffered pre-prepare is for the sequence its slot stands for. */
  ghost predicate Slotted(cfg: Config, slot: Option<Message>, sequence: nat) {
    slot.Some? ==>
      && slot.value.PrePrepare? && slot.value.proposal.Some? && slot.value.view == cfg.number
      && slot.value.sequence == sequence
  }

  /** The record of a proposal of a view. */
  ghost predicate Filed(number: nat, p: Proposal, s: Saved) {
    && s.ProposedRecord? && s.prePrepare.PrePrepare? && s.prePrepare.proposal == Some(p)
    && s.prePrepare.view == number && s.prePrepare.sequence == p.Sequence()
    && s.prepare == Prepare(number, p.Sequence(), DigestOf(p), false)
    && p.metadata.Decode().Some?
  }

  /** The record of the proposal at hand. */
  ghost predicate Recorded(v: View, s: Saved) {
    v.inFlight.Some? && Filed(v.cfg.number, v.inFlight.value, s) && (Behind(v) || MetadataMatches(v, v.inFlight.value))
  }

  /** The log ends with a proposal that has been passed. */
  ghost predicate Passed(number: nat, wal: seq<Saved>, delivered: nat) {
    && |wal| == 1
    && wal[0].ProposedRecord? && wal[0].prePrepare.PrePrepare? && wal[0].prePrepare.proposal.Some?
    && Filed(number, wal[0].prePrepare.proposal.value, wal[0])
    && wal[0].prePrepare.sequence <= delivered
  }

  /** The proposal the log ends with, if any, and whether its commit follows. */
  function Logged(wal: seq<Saved>): Option<InFlightData> {
    if wal == [] then None
    else
      match wal[|wal| - 1]
      case ProposedRecord(PrePrepare(_, _, Some(p), _), _) => Some(InFlightData(p, false))
      case CommitRecord(_) =>
        if |wal| < 2 then None
        else (match wal[|wal| - 2]
              case ProposedRecord(PrePrepare(_, _, Some(p), _), _) => Some(InFlightData(p, true))
              case _ => None)
      case _ => None
  }

  ghost predicate Remembers(v: View, wal: seq<Saved>, delivered: nat, inFlight: Option<InFlightData>) {
    && v.sequence == delivered + 1
    && match v.phase
       case COMMITTED => Settled(wal, delivered) || Passed(v.cfg.number, wal, delivered)
       case PROPOSED =>
         && |wal| == 1 && Recorded(v, wal[0])
         && v.lastBroadcast == Some(wal[0].prepare)
         && inFlight == Some(InFlightData(v.inFlight.value, false))
       case PREPARED =>
         && |wal| == 2 && Recorded(v, wal[0])
         && v.mySignature.Some?
         && wal[1] == CommitRecord(Commit(v.cfg.number, v.sequence, DigestOf(v.inFlight.value), v.mySignature, false))
         && v.lastBroadcast == Some(wal[1].commit)
         && inFlight == Some(InFlightData(v.inFlight.value, true))
       case ABORT => true
  }

  ghost predicate Boxed(v: View) {
    WellFormed(v) && Slotted(v.cfg, v.box.prePrepare, v.sequence)
        && Slotted(v.cfg, v.box.nextPrePrepare, v.sequence + 1)
  }

  /** One digest per sequence, and at the current one only that of the proposal at hand, if that is of the current
      sequence. */
  ghost predicate Consistent(v: View, cast: set<Pledge>) {
    && (forall a, b :: a in cast && b in cast && a.sequence == b.sequence ==> a.digest == b.digest)
    && (v.phase != ABORT ==> forall a :: a in cast ==> a.sequence <= v.sequence)
    && (v.phase != ABORT ==> forall a :: a in cast && a.sequence == v.sequence ==>
                               v.phase != COMMITTED && !Behind(v) && v.inFlight.Some?
                                   && a.digest == DigestOf(v.inFlight.value))
  }

  /** A kept vote was sent before. */
  ghost predicate Kept(m: Option<Message>, cast: set<Pledge>) {
    m.Some? ==> (m.value.Prepare? || m.value.Commit?) && Pledge(m.value.sequence, m.value.digest) in cast
  }

  ghost predicate OutboxKept(out: Outbox, cast: set<Pledge>) {
    Kept(out.currPrepare, cast) && Kept(out.currCommit, cast) && Kept(out.prevPrepare, cast)
        && Kept(out.prevCommit, cast)
  }

  ghost predicate Holds(d: Durable) {
    d.view.phase == ABORT || Remembers(d.view, d.wal, d.delivered, d.inFlight)
  }

  ghost predicate Safe(d: Durable) {
    && Boxed(d.view)
    && Holds(d)
    && Consistent(d.view, d.cast)
    && OutboxKept(d.view.out, d.cast)
    && Voted(d.wal, d.cast)
  }

  /** The vote in the record that the log consists of was sent. */
  ghost predicate Voted(wal: seq<Saved>, cast: set<Pledge>) {
    |wal| == 1 && wal[0].ProposedRecord? && wal[0].prepare.Prepare? ==>
      Pledge(wal[0].prepare.sequence, wal[0].prepare.digest) in cast
  }

  /** The start of a view: nothing voted in it, and nothing in the log still to be decided. */
  ghost predicate Fresh(d: Durable) {
    && d.view == NewView(d.view.cfg, d.delivered + 1, d.view.decisionsInView)
    && Settled(d.wal, d.delivered)
    && d.cast == {}
  }

  /** A synchronization to a checkpoint after which the view has no vote: past the one it has, or the same if the view
      is idle or its in-flight proposal is behind it. */
  predicate MaySync(d: Durable, checkpoint: nat) {
    || checkpoint > d.delivered
    || (checkpoint == d.delivered && (d.view.phase == COMMITTED || Behind(d.view)
                                      || Stale(d.inFlight, d.view.cfg.number, checkpoint)))
  }

  /** A new view right after the checkpoint; the log stays as it is. */
  function Synced(d: Durable, leader: NodeId, checkpoint: nat, decisionsInView: nat, prune: bool): Durable {
    Durable(NewView(d.view.cfg.(leaderId := leader), checkpoint + 1, decisionsInView),
            if prune then None else d.inFlight, d.wal, checkpoint, d.cast)
  }

  // ---- restoring gives the state back ----

  /** A crash at any point: the log gives back the phase, the proposal, the vote, the signature and the in-flight
      data, which is the crash step of the cluster model. */
  lemma {:induction false} RestoreGivesBack(d: Durable)
    requires d.view.phase != ABORT && Remembers(d.view, d.wal, d.delivered, d.inFlight)
    ensures FirstView(d.view.cfg, d.delivered + 1, d.view.decisionsInView, d.wal)
            == Restored(Crashed(d.view, Logged(d.wal), d.delivered),
                        CrashedInFlight(d.view.phase, d.inFlight, Logged(d.wal), d.delivered))
  {
  }

  /** What the view was is what it becomes, unless it was idle past the proposal that the log ends with. */
  lemma {:induction false} GivenBackExactly(d: Durable)
    requires d.view.phase != ABORT && Remembers(d.view, d.wal, d.delivered, d.inFlight)
    ensures Crashed(d.view, Logged(d.wal), d.delivered) == Recovered(d.view)
            <==> !(d.view.phase == COMMITTED && EndsWithProposal(d.wal))
  {
  }

  // ---- every step keeps this ----

  lemma {:induction false} BoxedStays(v: View, e: Event)
    requires Boxed(v) && Enabled(v, e)
    ensures Boxed(Apply(v, e))
  {
  }

  lemma {:induction false} SavingKeepsHold(d: Durable, e: Event)
    requires Boxed(d.view) && Enabled(d.view, e) && Holds(d)
    requires (e.TakePrePrepare? || e.BecomePrepared?) && !Behind(d.view)
    ensures Holds(Happens(d, e))
  {
  }

  lemma {:induction false} DecidingKeepsHold(d: Durable)
    requires Boxed(d.view) && Enabled(d.view, Decide) && Holds(d)
    ensures Holds(Happens(d, Decide))
  {
  }

  lemma {:induction false} CollectingKeepsHold(d: Durable, e: Event)
    requires Boxed(d.view) && Enabled(d.view, e) && Holds(d)
    requires !e.TakePrePrepare? && !e.BecomePrepared? && !e.Decide?
    ensures Holds(Happens(d, e))
  {
  }

  lemma {:induction false} EventKeepsHold(d: Durable, e: Event)
    requires Boxed(d.view) && Enabled(d.view, e) && Holds(d) && (e.BecomePrepared? ==> !Behind(d.view))
    ensures Holds(Happens(d, e))
  {
    match e {
      case TakePrePrepare(_) => SavingKeepsHold(d, e);
      case BecomePrepared => SavingKeepsHold(d, e);
      case Decide => DecidingKeepsHold(d);
      case _ => CollectingKeepsHold(d, e);
    }
  }

  /** Nothing but accepting a proposal and becoming prepared pledges anything new. */
  lemma {:induction false} RepliesAreOld(v: View, e: Event, cast: set<Pledge>)
    requires WellFormed(v) && Enabled(v, e) && OutboxKept(v.out, cast) && !AcceptsNow(v, e) && !e.BecomePrepared?
    ensures Pledges(Sent(v, e)) <= cast
  {
  }

  lemma {:induction false} AcceptPledges(v: View, e: Event)
    requires WellFormed(v) && Enabled(v, e) && AcceptsNow(v, e) && Boxed(v)
    ensures Pledges(Sent(v, e)) == {Pledge(v.sequence, DigestOf(Offered(v)))}
  {
  }

  lemma {:induction false} PreparedPledges(v: View, e: Event)
    requires WellFormed(v) && Enabled(v, e) && e.BecomePrepared?
    ensures Pledges(Sent(v, e)) == {Pledge(v.sequence, DigestOf(v.inFlight.value))}
  {
  }

  lemma {:induction false} ConsistentStays(v: View, e: Event, cast: set<Pledge>)
    requires Boxed(v) && Enabled(v, e) && Consistent(v, cast) && OutboxKept(v.out, cast)
    requires e.BecomePrepared? ==> !Behind(v)
    ensures Consistent(Apply(v, e), cast + Pledges(Sent(v, e)))
    ensures OutboxKept(Apply(v, e).out, cast + Pledges(Sent(v, e)))
  {
    if AcceptsNow(v, e) {
      AcceptPledges(v, e);
    } else if e.BecomePrepared? {
      PreparedPledges(v, e);
    } else {
      RepliesAreOld(v, e, cast);
      assert cast + Pledges(Sent(v, e)) == cast;
    }
  }

  lemma {:induction false} VotedStays(d: Durable, e: Event)
    requires Boxed(d.view) && Enabled(d.view, e) && Voted(d.wal, d.cast)
    requires Holds(d)
    ensures Voted(Happens(d, e).wal, Happens(d, e).cast)
  {
    if AcceptsNow(d.view, e) {
      AcceptPledges(d.view, e);
    }
  }

  lemma {:induction false} HappensKeepsSafe(d: Durable, e: Event)
    requires Safe(d) && Enabled(d.view, e) && (e.BecomePrepared? ==> !Behind(d.view))
    ensures Safe(Happens(d, e))
  {
    VotedStays(d, e);
    BoxedStays(d.view, e);
    EventKeepsHold(d, e);
    ConsistentStays(d.view, e, d.cast);
  }

  /** A restored view holds what the log holds, and has collected nothing. */
  lemma {:induction false} CrashKeepsHold(d: Durable)
    requires d.view.phase != ABORT && Remembers(d.view, d.wal, d.delivered, d.inFlight)
    ensures var v := Crashed(d.view, Logged(d.wal), d.delivered);
            && Remembers(v, d.wal, d.delivered, CrashedInFlight(d.view.phase, d.inFlight, Logged(d.wal), d.delivered))
            && v.out == EMPTY_OUTBOX && Boxed(v)
  {
  }

  /** The vote sent again after a restart is the one in the log. */
  lemma {:induction false} ResendingKeepsConsistent(d: Durable)
    requires d.view.phase != ABORT && Remembers(d.view, d.wal, d.delivered, d.inFlight)
    requires Consistent(d.view, d.cast) && Voted(d.wal, d.cast)
    ensures var v := Crashed(d.view, Logged(d.wal), d.delivered);
            Consistent(v, d.cast + Pledges(if v.lastBroadcast.Some? then {v.lastBroadcast.value} else {}))
  {
    var v := Crashed(d.view, Logged(d.wal), d.delivered);
    if v.phase == COMMITTED {
      assert d.cast + Pledges({}) == d.cast;
    } else {
      var m := v.lastBroadcast.value;
      assert Pledges({m}) == {Pledge(m.sequence, m.digest)};
    }
  }

  lemma {:induction false} RebootIsSafe(d: Durable)
    requires Safe(d) && d.view.phase != ABORT
    ensures Safe(Rebooted(d, Crashed(d.view, Logged(d.wal), d.delivered),
                          CrashedInFlight(d.view.phase, d.inFlight, Logged(d.wal), d.delivered)))
  {
    CrashKeepsHold(d);
    ResendingKeepsConsistent(d);
  }

  lemma {:induction false} RestartIsReboot(d: Durable)
    requires d.view.phase != ABORT && Remembers(d.view, d.wal, d.delivered, d.inFlight)
    ensures Restarted(d) == Some(Rebooted(d, Crashed(d.view, Logged(d.wal), d.delivered),
                                          CrashedInFlight(d.view.phase, d.inFlight, Logged(d.wal), d.delivered)))
  {
    RestoreGivesBack(d);
  }

  lemma {:induction false} RestartKeepsSafe(d: Durable)
    requires Safe(d) && d.view.phase != ABORT
    ensures Restarted(d).Some? && Safe(Restarted(d).value) && Restarted(d).value.view.phase != ABORT
    ensures Restarted(d).value.view == Crashed(d.view, Logged(d.wal), d.delivered)
    ensures Restarted(d).value.inFlight == CrashedInFlight(d.view.phase, d.inFlight, Logged(d.wal), d.delivered)
  {
    RestartIsReboot(d);
    RebootIsSafe(d);
  }

  lemma {:induction false} SyncKeepsSafe(d: Durable, leader: NodeId, checkpoint: nat, decisionsInView: nat, prune: bool)
    requires Safe(d) && d.view.phase != ABORT && MaySync(d, checkpoint)
    ensures Safe(Synced(d, leader, checkpoint, decisionsInView, prune))
  {
  }

  // ---- ended views ----

  function InPhase(d: Durable, phase: Phase): Durable {
    d.(view := d.view.(phase := phase))
  }

  /** Safe, and if the view has ended, safe in the phase in which it ended. */
  ghost predicate Secure(d: Durable) {
    exists phase :: phase != ABORT && Safe(InPhase(d, phase)) && (d.view.phase == phase || d.view.phase == ABORT)
  }

  lemma {:induction false} SafeIsSecure(d: Durable)
    requires Safe(d) && d.view.phase != ABORT
    ensures Secure(d)
  {
    assert InPhase(d, d.view.phase) == d;
  }

  lemma {:induction false} RejectingIsSafe(d: Durable)
    requires Safe(d) && Enabled(d.view, TakePrePrepare(false))
    ensures Safe(d.(view := RejectProposal(d.view).(phase := COMMITTED)))
  {
  }

  lemma {:induction false} EndingIsSecure(d: Durable, e: Event)
    requires Safe(d) && Enabled(d.view, e) && Happens(d, e).view.phase == ABORT
    ensures Secure(Happens(d, e))
  {
    var d' := Happens(d, e);
    assert d.cast + Pledges({}) == d.cast;
    if e.NoticeAbort? {
      assert InPhase(d', d.view.phase) == d;
    } else {
      RejectingIsSafe(d);
      assert InPhase(d', COMMITTED) == d.(view := RejectProposal(d.view).(phase := COMMITTED));
    }
  }

  lemma {:induction false} EventKeepsSecure(d: Durable, e: Event)
    requires Secure(d) && Enabled(d.view, e) && (e.BecomePrepared? ==> !Behind(d.view))
    ensures WellFormed(d.view) && Secure(Happens(d, e))
  {
    assert InPhase(d, d.view.phase) == d;
    if Happens(d, e).view.phase == ABORT {
      EndingIsSecure(d, e);
    } else {
      HappensKeepsSafe(d, e);
      SafeIsSecure(Happens(d, e));
    }
  }

  lemma {:induction false} SyncKeepsSecure(d: Durable, leader: NodeId, checkpoint: nat, decisionsInView: nat,
      prune: bool)
    requires Secure(d) && MaySync(d, checkpoint)
    ensures Secure(Synced(d, leader, checkpoint, decisionsInView, prune))
  {
    var phase :| phase != ABORT && Safe(InPhase(d, phase)) && (d.view.phase == phase || d.view.phase == ABORT);
    SyncKeepsSafe(InPhase(d, phase), leader, checkpoint, decisionsInView, prune);
    assert Synced(InPhase(d, phase), leader, checkpoint, decisionsInView, prune)
        == Synced(d, leader, checkpoint, decisionsInView, prune);
    SafeIsSecure(Synced(d, leader, checkpoint, decisionsInView, prune));
  }

  /** A restart works from the log alone, whatever the phase. */
  lemma {:induction false} RestartKeepsSecure(d: Durable)
    requires Secure(d)
    ensures Restarted(d).Some? && Secure(Restarted(d).value)
  {
    var phase :| phase != ABORT && Safe(InPhase(d, phase)) && (d.view.phase == phase || d.view.phase == ABORT);
    RestartKeepsSafe(InPhase(d, phase));
    RestartIgnoresPhase(d, phase);
    SafeIsSecure(Restarted(d).value);
  }

  lemma {:induction false} RestartIgnoresPhase(d: Durable, phase: Phase)
    ensures Restarted(InPhase(d, phase)) == Restarted(d)
  {
  }

  // ---- runs with crashes and synchronizations ----

  datatype Moment =
    | Runs(e: Event)
    | Syncs(leader: NodeId, checkpoint: nat, decisionsInView: nat, prune: bool)
    | Crashes

  /** A view that came back behind its checkpoint never becomes prepared: see OvertakenNeverPrepares in Invariance. */
  predicate Possible(d: Durable, m: Moment) {
    match m
    case Runs(e) => WellFormed(d.view) && Enabled(d.view, e) && (e.BecomePrepared? ==> !Behind(d.view))
    case Syncs(_, checkpoint, _, _) => MaySync(d, checkpoint)
    case Crashes => Restarted(d).Some?
  }

  function After(d: Durable, m: Moment): Durable
    requires Possible(d, m)
  {
    match m
    case Runs(e) => Happens(d, e)
    case Syncs(leader, checkpoint, decisionsInView, prune) => Synced(d, leader, checkpoint, decisionsInView, prune)
    case Crashes => Restarted(d).value
  }

  /** Any events, synchronizations and crashes in any order; None if one of them cannot happen. */
  function Live(d: Durable, moments: seq<Moment>): Option<Durable> {
    if moments == [] then Some(d)
    else
      var before := Live(d, moments[..|moments| - 1]);
      if before.None? || !Possible(before.value, moments[|moments| - 1]) then None
      else Some(After(before.value, moments[|moments| - 1]))
  }

  lemma {:induction false} RunIsSafe(d: Durable, moments: seq<Moment>)
    requires Fresh(d) && Live(d, moments).Some?
    ensures Secure(Live(d, moments).value)
  {
    if moments == [] {
      SafeIsSecure(d);
    } else {
      var init, last := moments[..|moments| - 1], moments[|moments| - 1];
      RunIsSafe(d, init);
      var before := Live(d, init).value;
      if last.Runs? {
        EventKeepsSecure(before, last.e);
      } else if last.Syncs? {
        SyncKeepsSecure(before, last.leader, last.checkpoint, last.decisionsInView, last.prune);
      } else {
        RestartKeepsSecure(before);
      }
    }
  }

  /** Whatever happened before, a crash outside a view change restores exactly the state the cluster model's crash
      step gives. That is the view as it was, without its collected votes, exactly unless the log ends with a proposal
      that a synchronization has passed. */
  lemma {:induction false} CrashRestores(d: Durable, moments: seq<Moment>)
    requires Fresh(d) && Live(d, moments).Some? && Live(d, moments).value.view.phase != ABORT
    ensures var now := Live(d, moments).value;
            && Restarted(now).Some?
            && Restarted(now).value.view == Crashed(now.view, Logged(now.wal), now.delivered)
            && Restarted(now).value.inFlight
               == CrashedInFlight(now.view.phase, now.inFlight, Logged(now.wal), now.delivered)
            && (Restarted(now).value.view == Recovered(now.view)
                <==> !(now.view.phase == COMMITTED && EndsWithProposal(now.wal)))
  {
    RunIsSafe(d, moments);
    assert InPhase(Live(d, moments).value, Live(d, moments).value.view.phase) == Live(d, moments).value;
    GivenBackExactly(Live(d, moments).value);
    RestartKeepsSafe(Live(d, moments).value);
  }

  // ---- the run in which a restart does not give the view back ----

  const START := Durable(NewView(Config(2, 1, 3, 0), 1, 0), None, [], 0, {})
  const PROPOSAL := Proposal([], [], MetadataField.Encoded(ViewMetadata(0, 1, 0, [], [])), 0)
  const PRE_PREPARE := PrePrepare(0, 1, Some(PROPOSAL), [])
  const ACCEPTING := [Runs(Receive(1, PRE_PREPARE)), Runs(BeginProposal), Runs(TakePrePrepare(true))]

  lemma {:induction false} LivesOn(d: Durable, moments: seq<Moment>, m: Moment)
    requires Live(d, moments).Some? && Possible(Live(d, moments).value, m)
    ensures Live(d, moments + [m]) == Some(After(Live(d, moments).value, m))
  {
    assert (moments + [m])[..|moments|] == moments;
  }

  lemma {:induction false} AcceptingSaves()
    ensures Fresh(START) && Live(START, ACCEPTING).Some?
    ensures var d := Live(START, ACCEPTING).value;
            && d.view.phase == PROPOSED && d.delivered == 0 && d.view.cfg == START.view.cfg
            && d.wal == [ProposedRecord(PRE_PREPARE, Prepare(0, 1, DigestOf(PROPOSAL), false))]
  {
    LivesOn(START, [], ACCEPTING[0]);
    var heard := Happens(START, Receive(1, PRE_PREPARE));
    assert heard.view == START.view.(box := EMPTY_MAILBOX.(prePrepare := Some(PRE_PREPARE)));
    assert [] + [ACCEPTING[0]] == [ACCEPTING[0]];
    LivesOn(START, [ACCEPTING[0]], ACCEPTING[1]);
    assert [ACCEPTING[0]] + [ACCEPTING[1]] == ACCEPTING[..2];
    LivesOn(START, ACCEPTING[..2], ACCEPTING[2]);
    assert ACCEPTING[..2] + [ACCEPTING[2]] == ACCEPTING;
  }

  /** A proposal is saved, a synchronization passes it, and the node restarts: it comes up with the old proposal at
      hand at the new sequence, and sends its old vote again. */
  lemma {:induction false} OvertakenComesBack(checkpoint: nat)
    requires checkpoint >= 1
    ensures Fresh(START) && Live(START, ACCEPTING + [Syncs(1, checkpoint, 0, true)]).Some?
    ensures var now := Live(START, ACCEPTING + [Syncs(1, checkpoint, 0, true)]).value;
            && now.view.phase == COMMITTED && Restarted(now).Some?
            && var again := Restarted(now).value.view;
               && again != Recovered(now.view)
               && again.phase == PROPOSED && again.inFlight == Some(PROPOSAL) && again.sequence == checkpoint + 1
               && again.lastBroadcast == Some(Prepare(0, 1, DigestOf(PROPOSAL), false))
  {
    AcceptingSaves();
    LivesOn(START, ACCEPTING, Syncs(1, checkpoint, 0, true));
  }

  /** Nothing makes a restart fail, the end of the view included. */
  lemma {:induction false} RestartNeverFails(d: Durable, moments: seq<Moment>)
    requires Fresh(d) && Live(d, moments).Some?
    ensures Restarted(Live(d, moments).value).Some?
  {
    RunIsSafe(d, moments);
    RestartKeepsSecure(Live(d, moments).value);
  }

  /** However often it restarts and synchronizes, a replica never votes for two digests at one sequence of a view. */
  lemma {:induction false} OneDigestPerSequence(d: Durable, moments: seq<Moment>, a: Pledge, b: Pledge)
    requires Fresh(d) && Live(d, moments).Some?
    requires a in Live(d, moments).value.cast && b in Live(d, moments).value.cast && a.sequence == b.sequence
    ensures a.digest == b.digest
  {
    RunIsSafe(d, moments);
  }

  // ---- the log is the write-ahead log ----

  datatype Life = Saves(s: Saved) | Reboots

  /** What the saves and reboots of a replica ask of its write-ahead log. */
  function Operations(encode: Saved -> Bytes, lives: seq<Life>): seq<WalLog.Op> {
    if lives == [] then []
    else
      var before := Operations(encode, lives[..|lives| - 1]);
      match lives[|lives| - 1]
      case Saves(s) => before + [WalLog.Append(encode(s), s.ProposedRecord?)]
      case Reboots => before + [WalLog.Open] + [WalLog.ReadEntries]
  }

  function SavedLog(lives: seq<Life>): seq<Saved> {
    if lives == [] then []
    else
      var before := SavedLog(lives[..|lives| - 1]);
      if lives[|lives| - 1].Saves? then Save(before, lives[|lives| - 1].s) else before
  }

  function Encoded(encode: Saved -> Bytes, entries: seq<Saved>): seq<Bytes> {
    if entries == [] then [] else Encoded(encode, entries[..|entries| - 1]) + [encode(entries[|entries| - 1])]
  }

  function EntryOf(encode: Saved -> Bytes, s: Saved): WalFormat.Record {
    WalFormat.Record(WalFormat.Entry, s.ProposedRecord?, encode(s))
  }

  /** Every saved message encodes to some bytes that fit one record. */
  ghost predicate Storable(c: WalFormat.Codec, encode: Saved -> Bytes, lives: seq<Life>) {
    forall i :: 0 <= i < |lives| && lives[i].Saves? ==> WalFormat.Fits(c, EntryOf(encode, lives[i].s))
  }

  lemma {:induction false} SaveAppends(c: WalFormat.Codec, encode: Saved -> Bytes, ops: seq<WalLog.Op>,
      entries: seq<Saved>, s: Saved)
    requires WalLog.Entries(c, ops) == WalLog.Log(WalModel.Writing, Encoded(encode, entries))
    requires WalFormat.Fits(c, EntryOf(encode, s))
    ensures WalLog.Entries(c, ops + [WalLog.Append(encode(s), s.ProposedRecord?)])
            == WalLog.Log(WalModel.Writing, Encoded(encode, Save(entries, s)))
  {
  }

  lemma {:induction false} RebootKeeps(c: WalFormat.Codec, ops: seq<WalLog.Op>)
    requires WalLog.Entries(c, ops).mode.Writing?
    ensures WalLog.Entries(c, ops + [WalLog.Open] + [WalLog.ReadEntries]) == WalLog.Entries(c, ops)
  {
  }

  lemma {:induction false} LogHoldsSaves(c: WalFormat.Codec, encode: Saved -> Bytes, lives: seq<Life>)
    requires Storable(c, encode, lives)
    ensures WalLog.Entries(c, Operations(encode, lives))
            == WalLog.Log(WalModel.Writing, Encoded(encode, SavedLog(lives)))
  {
    if lives != [] {
      var init, last := lives[..|lives| - 1], lives[|lives| - 1];
      assert Storable(c, encode, init);
      LogHoldsSaves(c, encode, init);
      if last.Saves? {
        SaveAppends(c, encode, Operations(encode, init), SavedLog(init), last.s);
      } else {
        RebootKeeps(c, Operations(encode, init));
      }
    }
  }

  /** Whatever a replica saved, with reboots in between and any file-size limit, reading its write-ahead log gives
      back exactly the saved messages since the last proposal. */
  lemma {:induction false} SavesSurvive(c: WalFormat.Codec, limit: int, encode: Saved -> Bytes, lives: seq<Life>)
    requires WalFormat.Lawful(c) && Storable(c, encode, lives)
    ensures WalRecovery.Initialize(c, WalLog.Files(c, limit, Operations(encode, lives)).disk).result
            == WalModel.Items(Encoded(encode, SavedLog(lives)))
  {
    WalRecovery.NothingIsLost(c, limit, Operations(encode, lives));
    LogHoldsSaves(c, encode, lives);
  }
}
