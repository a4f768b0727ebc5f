/**
 Version bookkeeping of a session: which server_seq changed which prim and which
 server_seq reached which connection. The book keeps a constant amount of data per
 prim and per (connection, prim); `CheckMatchesLog` shows that nothing is lost by that.
 */
module Versions {

  /** 0 is "no connection": the writer of changes the server makes itself. */
  type ConnectionId = nat

  type PrimPath = string

  datatype UpdateBaseStatus = Current | Stale | InvalidBase

  datatype PrimVersion = PrimVersion(lastChangeSeq: nat, lastWriter: ConnectionId, foreignBeforeRun: nat)

  datatype ConnectionVersions = ConnectionVersions(maxSentSeq: nat, correctionSeq: map<PrimPath, nat>)

  datatype Book = Book(prims: map<PrimPath, PrimVersion>, connections: map<ConnectionId, ConnectionVersions>)

  /** One call of a Record method. */
  datatype Event =
    | Change(prim: PrimPath, seq_: nat, writer: ConnectionId)
    | Sent(connection: ConnectionId, seq_: nat)
    | Correction(connection: ConnectionId, prim: PrimPath, seq_: nat)

  const EMPTY_BOOK := Book(map[], map[])

  function Max(a: nat, b: nat): nat {
    if a < b then b else a
  }

  function PrimEntry(b: Book, prim: PrimPath): PrimVersion {
    if prim in b.prims then b.prims[prim] else PrimVersion(0, 0, 0)
  }

  function ConnectionEntry(b: Book, c: ConnectionId): ConnectionVersions {
    if c in b.connections then b.connections[c] else ConnectionVersions(0, map[])
  }

  function Changed(pv: PrimVersion, s: nat, writer: ConnectionId): PrimVersion {
    if writer == 0 || pv.lastWriter != writer
    then PrimVersion(s, writer, pv.lastChangeSeq)
    else pv.(lastChangeSeq := s)
  }

  /** The book after one recorded event. */
  function Record(b: Book, e: Event): Book {
    match e
    case Change(prim, s, writer) =>
      b.(prims := b.prims[prim := Changed(PrimEntry(b, prim), s, writer)])
    case Sent(c, s) =>
      var cv := ConnectionEntry(b, c);
      b.(connections := b.connections[c := cv.(maxSentSeq := Max(cv.maxSentSeq, s))])
    case Correction(c, prim, s) =>
      var cv := ConnectionEntry(b, c);
      b.(connections := b.connections[c :=
        ConnectionVersions(Max(cv.maxSentSeq, s), cv.correctionSeq[prim := s])])
  }

  function MaxSent(b: Book, c: ConnectionId): nat {
    ConnectionEntry(b, c).maxSentSeq
  }

  function CorrectionSeq(b: Book, c: ConnectionId, prim: PrimPath): nat {
    var m := ConnectionEntry(b, c).correctionSeq;
    if prim in m then m[prim] else 0
  }

  function LatestForeign(b: Book, sender: ConnectionId, prim: PrimPath): nat {
    var pv := PrimEntry(b, prim);
    if pv.lastWriter == sender then pv.foreignBeforeRun else pv.lastChangeSeq
  }

  /** The newest version of the prim that an update of `sender` has to be based on. */
  function Notice(b: Book, sender: ConnectionId, prim: PrimPath): nat {
    Max(LatestForeign(b, sender, prim), CorrectionSeq(b, sender, prim))
  }

  function Check(b: Book, sender: ConnectionId, prim: PrimPath, base: nat): UpdateBaseStatus {
    if base > MaxSent(b, sender) then InvalidBase
    else if base < Notice(b, sender, prim) then Stale
    else Current
  }

  // ------------------------------------------------------------------
  // The full log as reference
  // ------------------------------------------------------------------

  function Replay(log: seq<Event>): Book {
    if log == [] then EMPTY_BOOK else Record(Replay(log[..|log| - 1]), log[|log| - 1])
  }

  /** `e` put a state of `prim` in place that `sender` did not make itself. */
  ghost predicate Concerns(e: Event, sender: ConnectionId, prim: PrimPath) {
    match e
    case Change(q, _, writer) => q == prim && writer != sender
    case Sent(_, _) => false
    case Correction(c, q, _) => c == sender && q == prim
  }

  /** `e` sent something to connection `c`. */
  ghost predicate Reaches(e: Event, c: ConnectionId) {
    !e.Change? && e.connection == c
  }

  /** Changes of one prim, and corrections of one prim to one connection, carry non-decreasing seqs. */
  ghost predicate Ordered(log: seq<Event>) {
    forall i, j | 0 <= i < j < |log| ::
      ((log[i].Change? && log[j].Change? && log[i].prim == log[j].prim)
       || (log[i].Correction? && log[j].Correction? && log[i].prim == log[j].prim
           && log[i].connection == log[j].connection))
      ==> log[i].seq_ <= log[j].seq_
  }

  /** The verdict a search of the whole log gives. */
  ghost function LogCheck(log: seq<Event>, sender: ConnectionId, prim: PrimPath, base: nat): UpdateBaseStatus {
    if base > 0 && !exists e :: e in log && Reaches(e, sender) && e.seq_ >= base then InvalidBase
    else if exists e :: e in log && Concerns(e, sender, prim) && e.seq_ > base then Stale
    else Current
  }

  /** `bound` is the largest seq of a `log` entry that satisfies `p`, or 0 if there is none. */
  ghost predicate IsLargest(bound: nat, log: seq<Event>, p: Event -> bool) {
    && (forall e | e in log && p(e) :: e.seq_ <= bound)
    && (bound == 0 || exists e :: e in log && p(e) && e.seq_ == bound)
  }

  ghost function ForeignChange(sender: ConnectionId, prim: PrimPath): Event -> bool {
    (e: Event) => e.Change? && e.prim == prim && e.writer != sender
  }

  ghost function AnyChange(prim: PrimPath): Event -> bool {
    (e: Event) => e.Change? && e.prim == prim
  }

  ghost function CorrectionTo(c: ConnectionId, prim: PrimPath): Event -> bool {
    (e: Event) => e.Correction? && e.connection == c && e.prim == prim
  }

  ghost function SentTo(c: ConnectionId): Event -> bool {
    (e: Event) => Reaches(e, c)
  }

  /** What the book entries mean in terms of the log. */
  ghost predicate Summarizes(b: Book, log: seq<Event>, sender: ConnectionId, prim: PrimPath) {
    && IsLargest(PrimEntry(b, prim).lastChangeSeq, log, AnyChange(prim))
    && IsLargest(LatestForeign(b, sender, prim), log, ForeignChange(sender, prim))
    && IsLargest(CorrectionSeq(b, sender, prim), log, CorrectionTo(sender, prim))
    && IsLargest(MaxSent(b, sender), log, SentTo(sender))
  }

  lemma {:induction false} ReplaySummarizes(log: seq<Event>, sender: ConnectionId, prim: PrimPath)
    requires Ordered(log) && sender != 0
    ensures Summarizes(Replay(log), log, sender, prim)
  {
    if log != [] {
      var init, e := log[..|log| - 1], log[|log| - 1];
      assert log == init + [e];
      ReplaySummarizes(init, sender, prim);
      ChangesStep(Replay(init), init, e, sender, prim);
      ConnectionStep(Replay(init), init, e, sender, prim);
    }
  }

  lemma ChangesStep(b: Book, init: seq<Event>, e: Event, sender: ConnectionId, prim: PrimPath)
    requires Ordered(init + [e]) && sender != 0 && Summarizes(b, init, sender, prim)
    ensures IsLargest(PrimEntry(Record(b, e), prim).lastChangeSeq, init + [e], AnyChange(prim))
    ensures IsLargest(LatestForeign(Record(b, e), sender, prim), init + [e], ForeignChange(sender, prim))
  {
    var b' := Record(b, e);
    LastIsNewest(init, e);
    LargestStep(init, e, AnyChange(prim), PrimEntry(b, prim).lastChangeSeq, PrimEntry(b', prim).lastChangeSeq);
    LargestStep(init, e, ForeignChange(sender, prim), LatestForeign(b, sender, prim), LatestForeign(b', sender, prim));
  }

  lemma ConnectionStep(b: Book, init: seq<Event>, e: Event, sender: ConnectionId, prim: PrimPath)
    requires Ordered(init + [e]) && sender != 0 && Summarizes(b, init, sender, prim)
    ensures IsLargest(CorrectionSeq(Record(b, e), sender, prim), init + [e], CorrectionTo(sender, prim))
    ensures IsLargest(MaxSent(Record(b, e), sender), init + [e], SentTo(sender))
  {
    var b' := Record(b, e);
    LastIsNewest(init, e);
    LargestStep(init, e, CorrectionTo(sender, prim), CorrectionSeq(b, sender, prim), CorrectionSeq(b', sender, prim));
    LargestStep(init, e, SentTo(sender), MaxSent(b, sender), MaxSent(b', sender));
  }

  lemma LastIsNewest(init: seq<Event>, e: Event)
    requires Ordered(init + [e])
    ensures forall x | x in init && e.Change? && x.Change? && x.prim == e.prim :: x.seq_ <= e.seq_
    ensures forall x | x in init && e.Correction? && CorrectionTo(e.connection, e.prim)(x) :: x.seq_ <= e.seq_
  {
    var log := init + [e];
    assert log[|init|] == e;
    assert forall i | 0 <= i < |init| :: log[i] == init[i];
  }

  /** Appending `e`: the largest seq becomes `e`'s if `e` counts and is not smaller, else it stays. */
  lemma LargestStep(init: seq<Event>, e: Event, p: Event -> bool, bound: nat, bound': nat)
    requires IsLargest(bound, init, p)
    requires bound' == if p(e) && bound <= e.seq_ then e.seq_ else bound
    ensures IsLargest(bound', init + [e], p)
  {
    assert e in init + [e];
    forall x | x in init + [e] && p(x) ensures x.seq_ <= bound' {
      assert x in init || x == e;
    }
    if bound' != 0 && !(p(e) && bound <= e.seq_) {
      var x :| x in init && p(x) && x.seq_ == bound;
      assert x in init + [e];
    }
  }

  /** The constant-size book answers exactly as a search of the whole history would. */
  lemma CheckMatchesLog(log: seq<Event>, sender: ConnectionId, prim: PrimPath, base: nat)
    requires Ordered(log) && sender != 0
    ensures Check(Replay(log), sender, prim, base) == LogCheck(log, sender, prim, base)
  {
    ReplaySummarizes(log, sender, prim);
  }

  /** A run of changes by the sender itself never makes its own update stale. */
  lemma {:induction false} OwnRunNeverStale(
    log: seq<Event>, own: seq<Event>, sender: ConnectionId, prim: PrimPath, base: nat)
    requires Ordered(log + own) && sender != 0
    requires forall e | e in own :: e.Change? && e.writer == sender
    ensures Check(Replay(log + own), sender, prim, base) == Check(Replay(log), sender, prim, base)
  {
    forall i, j | 0 <= i < j < |log| ensures
        ((log[i].Change? && log[j].Change? && log[i].prim == log[j].prim)
         || (log[i].Correction? && log[j].Correction? && log[i].prim == log[j].prim
             && log[i].connection == log[j].connection))
        ==> log[i].seq_ <= log[j].seq_
    {
      assert (log + own)[i] == log[i] && (log + own)[j] == log[j];
    }
    CheckMatchesLog(log, sender, prim, base);
    CheckMatchesLog(log + own, sender, prim, base);
    assert forall e :: e in log + own <==> e in log || e in own;
  }

  // ------------------------------------------------------------------
  // How one event moves the notice (used by the update protocol)
  // ------------------------------------------------------------------

  lemma OwnChangeKeepsNotice(b: Book, prim: PrimPath, s: nat, c: ConnectionId)
    requires c != 0
    ensures forall q :: LatestForeign(Record(b, Change(prim, s, c)), c, q) == LatestForeign(b, c, q)
    ensures forall q :: Notice(Record(b, Change(prim, s, c)), c, q) == Notice(b, c, q)
  {
  }

  // ------------------------------------------------------------------
  // The class
  // ------------------------------------------------------------------

  class SessionVersions {
    var prims: map<PrimPath, PrimVersion>
    var connections: map<ConnectionId, ConnectionVersions>
    /** Every event recorded so far. */
    ghost var log: seq<Event>

    function State(): Book
      reads this
    {
      Book(prims, connections)
    }

    ghost predicate Valid()
      reads this
    {
      State() == Replay(log)
    }

    constructor ()
      ensures Valid() && log == []
    {
      prims, connections := map[], map[];
      log := [];
    }

    method CheckUpdate(sender: ConnectionId, primPath: PrimPath, base: nat) returns (status: UpdateBaseStatus)
      requires Valid()
      ensures status == Check(State(), sender, primPath, base)
      ensures sender != 0 && Ordered(log) ==> status == LogCheck(log, sender, primPath, base)
    {
      var maxSent, correction := 0, 0;
      if sender in connections {
        maxSent := connections[sender].maxSentSeq;
        if primPath in connections[sender].correctionSeq {
          correction := connections[sender].correctionSeq[primPath];
        }
      }
      if base > maxSent {
        status := InvalidBase;
      } else {
        var latestForeign := 0;
        if primPath in prims {
          latestForeign := if prims[primPath].lastWriter == sender
                           then prims[primPath].foreignBeforeRun
                           else prims[primPath].lastChangeSeq;
        }
        status := if base < Max(latestForeign, correction) then Stale else Current;
      }
      if sender != 0 && Ordered(log) {
        CheckMatchesLog(log, sender, primPath, base);
      }
    }

    method RecordChange(primPath: PrimPath, s: nat, writer: ConnectionId)
      requires Valid()
      modifies this
      ensures Valid() && log == old(log) + [Change(primPath, s, writer)]
      ensures State() == Record(old(State()), Change(primPath, s, writer))
    {
      var prim := PrimEntry(State(), primPath);
      if writer == 0 || prim.lastWriter != writer {
        prim := prim.(foreignBeforeRun := prim.lastChangeSeq, lastWriter := writer);
      }
      prims := prims[primPath := prim.(lastChangeSeq := s)];
      log := log + [Change(primPath, s, writer)];
      assert log[..|log| - 1] == old(log);
    }

    method RecordSent(connection: ConnectionId, s: nat)
      requires Valid()
      modifies this
      ensures Valid() && log == old(log) + [Sent(connection, s)]
      ensures State() == Record(old(State()), Sent(connection, s))
    {
      var cv := ConnectionEntry(State(), connection);
      connections := connections[connection := cv.(maxSentSeq := Max(cv.maxSentSeq, s))];
      log := log + [Sent(connection, s)];
      assert log[..|log| - 1] == old(log);
    }

    method RecordCorrection(connection: ConnectionId, primPath: PrimPath, s: nat)
      requires Valid()
      modifies this
      ensures Valid() && log == old(log) + [Correction(connection, primPath, s)]
      ensures State() == Record(old(State()), Correction(connection, primPath, s))
    {
      var cv := ConnectionEntry(State(), connection);
      connections := connections[connection :=
        ConnectionVersions(Max(cv.maxSentSeq, s), cv.correctionSeq[primPath := s])];
      log := log + [Correction(connection, primPath, s)];
      assert log[..|log| - 1] == old(log);
    }
  }
}
