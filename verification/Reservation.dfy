/** Keyed run reservations: one record file per idempotency key. */
module Reservation {
  import opened Prelude

  datatype Lease = Lease(pid: nat, pidStart: Option<nat>, startedAt: nat, leasePath: Option<string>)

  datatype CallerPlan = CallerPlan(request: string, branch: string, checkout: string, baseSha: string)

  datatype Record = Record(
    schemaVersion: nat, runId: string, creator: Option<Lease>, staleRunIds: seq<string>, plan: Option<CallerPlan>)

  /** The key's file: missing, readable, or holding a record no reader accepts. */
  datatype Slot = Absent | Stored(rec: Record) | Unreadable

  function Owner(s: Slot): Option<string> {
    if s.Stored? then Some(s.rec.runId) else None
  }

  /** What callers ask for, each under the key's lock. `published` is whether the manifest the
      reclaimer looks at exists. */
  datatype Request =
    | Reserve(rec: Record)
    | Reclaim(observed: Record, replacement: Record, published: bool)
    | Release(runId: string)
    | FinishCleanup(runId: string)

  datatype Reply =
    | Reserved | AlreadyReserved(rec: Record)
    | Reclaimed | Published | Changed(rec: Record)
    | Ok | OwnerChanged | ReadError

  /** The file after one request. */
  function After(s: Slot, q: Request): Slot {
    match q
    case Reserve(r) => if s.Absent? then Stored(r) else s
    case Reclaim(observed, r, published) =>
      if published then s else if s.Absent? || s == Stored(observed) then Stored(r) else s
    case Release(id) => if Owner(s) == Some(id) then Absent else s
    case FinishCleanup(id) => if Owner(s) == Some(id) then Stored(s.rec.(staleRunIds := [])) else s
  }

  function Answer(s: Slot, q: Request): Reply {
    if s.Unreadable? && !(q.Reclaim? && q.published) then ReadError else
    match q
    case Reserve(_) => if s.Absent? then Reserved else AlreadyReserved(s.rec)
    case Reclaim(observed, _, published) =>
      if published then Published else if s.Absent? || s.rec == observed then Reclaimed else Changed(s.rec)
    case Release(_) => Ok
    case FinishCleanup(id) => if s.Stored? && s.rec.runId != id then OwnerChanged else Ok
  }

  /** The record file of one key, worked on under its lock. */
  class KeyFile {
    var slot: Slot

    constructor ()
      ensures slot == Absent
    {
      slot := Absent;
    }

    /** The hard link: it claims the name only if nothing has it. */
    method WriteRecordExclusive(r: Record) returns (won: bool)
      modifies this
      ensures won == old(slot).Absent? && slot == if won then Stored(r) else old(slot)
    {
      won := slot.Absent?;
      if won { slot := Stored(r); }
    }

    method ReserveKey(r: Record) returns (reply: Reply)
      modifies this
      ensures match old(slot)
              case Absent => reply == Reserved && slot == Stored(r)
              case Stored(existing) => reply == AlreadyReserved(existing) && slot == old(slot)
              case Unreadable => reply == ReadError && slot == old(slot)
      ensures slot == After(old(slot), Reserve(r)) && reply == Answer(old(slot), Reserve(r))
    {
      match slot {
        case Unreadable => return ReadError;
        case Stored(existing) => return AlreadyReserved(existing);
        case Absent =>
          var won := WriteRecordExclusive(r);
          return Reserved;
      }
    }

    method ReclaimKey(observed: Record, r: Record, published: bool) returns (reply: Reply)
      modifies this
      ensures published ==> reply == Published && slot == old(slot)
      ensures !published ==>
                match old(slot)
                case Absent => reply == Reclaimed && slot == Stored(r)
                case Stored(current) =>
                  if current == observed then reply == Reclaimed && slot == Stored(r)
                  else reply == Changed(current) && slot == old(slot)
                case Unreadable => reply == ReadError && slot == old(slot)
      ensures slot == After(old(slot), Reclaim(observed, r, published))
      ensures reply == Answer(old(slot), Reclaim(observed, r, published))
    {
      if published { return Published; }
      match slot {
        case Unreadable => return ReadError;
        case Stored(current) =>
          if current == observed {
            slot := Stored(r);
            return Reclaimed;
          }
          return Changed(current);
        case Absent =>
          var won := WriteRecordExclusive(r);
          return Reclaimed;
      }
    }

    method ReleaseKey(id: string) returns (reply: Reply)
      modifies this
      ensures old(slot).Stored? && old(slot).rec.runId == id ==> reply == Ok && slot == Absent
      ensures old(slot).Stored? && old(slot).rec.runId != id ==> reply == Ok && slot == old(slot)
      ensures old(slot).Absent? ==> reply == Ok && slot == Absent
      ensures old(slot).Unreadable? ==> reply == ReadError && slot == Unreadable
      ensures slot == After(old(slot), Release(id)) && reply == Answer(old(slot), Release(id))
    {
      match slot {
        case Unreadable => return ReadError;
        case Absent => return Ok;
        case Stored(r) =>
          if r.runId == id { slot := Absent; }
          return Ok;
      }
    }

    method FinishStaleCleanup(id: string) returns (reply: Reply)
      modifies this
      ensures old(slot).Stored? && old(slot).rec.runId == id ==>
                && reply == Ok && slot.Stored? && slot.rec.staleRunIds == []
                && slot.rec == old(slot).rec.(staleRunIds := slot.rec.staleRunIds)
      ensures old(slot).Stored? && old(slot).rec.runId != id ==> reply == OwnerChanged && slot == old(slot)
      ensures old(slot).Absent? ==> reply == Ok && slot == Absent
      ensures old(slot).Unreadable? ==> reply == ReadError && slot == Unreadable
      ensures slot == After(old(slot), FinishCleanup(id)) && reply == Answer(old(slot), FinishCleanup(id))
    {
      match slot {
        case Unreadable => return ReadError;
        case Absent => return Ok;
        case Stored(r) =>
          if r.runId != id { return OwnerChanged; }
          if r.staleRunIds != [] { slot := Stored(r.(staleRunIds := [])); }
          assert r.staleRunIds == [] ==> r.(staleRunIds := []) == r;
          return Ok;
      }
    }
  }

  // ---- every interleaving of lock-held requests ----

  function SlotAt(s: Slot, qs: seq<Request>, i: nat): Slot
    requires i <= |qs|
  {
    if i == 0 then s else After(SlotAt(s, qs, i - 1), qs[i - 1])
  }

  /** This request takes the key away from run `id`: its own release, or a reclaim that saw
      exactly the stored record of an unpublished run. */
  predicate TakesFrom(s: Slot, q: Request, id: string) {
    && Owner(s) == Some(id)
    && ( || q == Release(id)
         || (q.Reclaim? && !q.published && s == Stored(q.observed) && q.replacement.runId != id))
  }

  /** One request takes the key away exactly when it is the owner's release or a matching reclaim:
      the release frees it, the reclaim hands it over. */
  lemma TakenExactly(s: Slot, q: Request, id: string)
    requires Owner(s) == Some(id)
    ensures Owner(After(s, q)) != Some(id) <==> TakesFrom(s, q, id)
    ensures q == Release(id) ==> After(s, q) == Absent && Answer(s, q) == Ok
    ensures q.Reclaim? && !q.published && s == Stored(q.observed) ==>
              After(s, q) == Stored(q.replacement) && Answer(s, q) == Reclaimed
  {}

  /** A request that may put a record into a free file. */
  predicate MayClaim(q: Request) { q.Reserve? || (q.Reclaim? && !q.published) }

  /** A free key stays free until the next reservation or reclaim, and that one wins it. */
  lemma {:induction false} FreeUntilClaimed(s: Slot, qs: seq<Request>, i: nat, j: nat)
    requires i <= j < |qs| && SlotAt(s, qs, i) == Absent && forall k :: i <= k < j ==> !MayClaim(qs[k])
    ensures SlotAt(s, qs, j) == Absent
    ensures qs[j].Reserve? ==> Answer(SlotAt(s, qs, j), qs[j]) == Reserved && SlotAt(s, qs, j + 1) == Stored(qs[j].rec)
    ensures qs[j].Reclaim? && !qs[j].published ==>
              Answer(SlotAt(s, qs, j), qs[j]) == Reclaimed && SlotAt(s, qs, j + 1) == Stored(qs[j].replacement)
  {
    if i < j { FreeUntilClaimed(s, qs, i, j - 1); }
  }

  /** Once the owner has released it, the next reserver gets the key. */
  lemma {:induction false} ReleaseFreesTheKey(s: Slot, qs: seq<Request>, i: nat, j: nat, id: string)
    requires i < j < |qs| && Owner(SlotAt(s, qs, i)) == Some(id) && qs[i] == Release(id) && qs[j].Reserve?
    requires forall k :: i < k < j ==> !MayClaim(qs[k])
    ensures Answer(SlotAt(s, qs, j), qs[j]) == Reserved && SlotAt(s, qs, j + 1) == Stored(qs[j].rec)
  {
    FreeUntilClaimed(s, qs, i + 1, j);
  }

  /** The owner's cleanup clears its obligations and nothing else of its record. */
  lemma CleanupClears(s: Slot, id: string)
    requires Owner(s) == Some(id)
    ensures var t := After(s, FinishCleanup(id));
            && t.Stored? && t.rec.staleRunIds == [] && t.rec == s.rec.(staleRunIds := t.rec.staleRunIds)
            && Answer(s, FinishCleanup(id)) == Ok
  {}

  /** The key leaves a run only by its own release or by a matching reclaim. */
  lemma {:induction false} OwnershipMoves(s: Slot, qs: seq<Request>, i: nat, j: nat, id: string)
    requires i <= j <= |qs| && Owner(SlotAt(s, qs, i)) == Some(id) && Owner(SlotAt(s, qs, j)) != Some(id)
    ensures exists k :: i <= k < j && TakesFrom(SlotAt(s, qs, k), qs[k], id)
    decreases j - i
  {
    if Owner(SlotAt(s, qs, i + 1)) == Some(id) {
      OwnershipMoves(s, qs, i + 1, j, id);
    } else {
      assert SlotAt(s, qs, i + 1) == After(SlotAt(s, qs, i), qs[i]);
      assert TakesFrom(SlotAt(s, qs, i), qs[i], id);
    }
  }

  /** The run id a request could make the owner. */
  function Introduces(q: Request): Option<string> {
    match q
    case Reserve(r) => Some(r.runId)
    case Reclaim(_, r, _) => Some(r.runId)
    case _ => None
  }

  /** Every attempt brings a run id of its own. */
  ghost predicate FreshIds(s: Slot, qs: seq<Request>) {
    && (forall i, j :: 0 <= i < j < |qs| && Introduces(qs[i]).Some? ==> Introduces(qs[i]) != Introduces(qs[j]))
    && (Owner(s).Some? ==> forall i :: 0 <= i < |qs| ==> Introduces(qs[i]) != Owner(s))
  }

  /** The owner came from the initial file or from an earlier request. */
  lemma {:induction false} OwnerWasIntroduced(s: Slot, qs: seq<Request>, i: nat)
    requires i <= |qs| && Owner(SlotAt(s, qs, i)).Some?
    ensures || Owner(SlotAt(s, qs, i)) == Owner(s)
            || exists k :: 0 <= k < i && Introduces(qs[k]) == Owner(SlotAt(s, qs, i))
  {
    if i > 0 && Owner(SlotAt(s, qs, i)) == Owner(SlotAt(s, qs, i - 1)) {
      OwnerWasIntroduced(s, qs, i - 1);
    } else if i > 0 {
      assert Introduces(qs[i - 1]) == Owner(SlotAt(s, qs, i));
    }
  }

  /** No ABA: with fresh run ids a run that lost the key never owns it again, so its late
      release, late cleanup or a reclaim that observed its record changes nothing. */
  lemma {:induction false} LostForGood(s: Slot, qs: seq<Request>, i: nat, j: nat, k: nat, id: string)
    requires FreshIds(s, qs) && i <= j <= k <= |qs|
    requires Owner(SlotAt(s, qs, i)) == Some(id) && Owner(SlotAt(s, qs, j)) != Some(id)
    ensures Owner(SlotAt(s, qs, k)) != Some(id)
    ensures After(SlotAt(s, qs, k), Release(id)) == SlotAt(s, qs, k)
    ensures After(SlotAt(s, qs, k), FinishCleanup(id)) == SlotAt(s, qs, k)
    ensures forall observed: Record, r: Record :: observed.runId == id && !SlotAt(s, qs, k).Absent? ==>
              After(SlotAt(s, qs, k), Reclaim(observed, r, false)) == SlotAt(s, qs, k)
  {
    if j < k {
      LostForGood(s, qs, i, j, k - 1, id);
      if Owner(SlotAt(s, qs, k)) == Some(id) {
        assert Introduces(qs[k - 1]) == Some(id);
        OwnerWasIntroduced(s, qs, i);
        assert false;
      }
    }
  }

  /** Between a reservation and the key leaving its owner, every other reserver is told about
      that owner. */
  lemma {:induction false} OthersSeeTheOwner(s: Slot, qs: seq<Request>, i: nat, j: nat, id: string, r: Record)
    requires i <= j <= |qs| && Owner(SlotAt(s, qs, i)) == Some(id)
    requires forall k :: i <= k < j ==> !TakesFrom(SlotAt(s, qs, k), qs[k], id)
    ensures Answer(SlotAt(s, qs, j), Reserve(r)).AlreadyReserved?
    ensures Answer(SlotAt(s, qs, j), Reserve(r)).rec.runId == id
  {
    if Owner(SlotAt(s, qs, j)) != Some(id) { OwnershipMoves(s, qs, i, j, id); }
  }

  // ---- the hard-link race, with no lock at all ----

  /** Where one racing reserver stands. */
  datatype Pc = Start | Claiming | Linking | Contended | Won | Told(rec: Record) | Vanished

  /** The key's file, the claim files (one per run id) and the racers. */
  datatype Race = Race(slot: Slot, temps: map<string, Record>, pcs: seq<Pc>)

  ghost predicate RacerStep(recs: seq<Record>, a: Race, b: Race, i: nat)
    requires i < |recs| && |a.pcs| == |recs|
  {
    match a.pcs[i]
    case Start =>
      if a.slot.Stored? then b == a.(pcs := a.pcs[i := Told(a.slot.rec)]) else b == a.(pcs := a.pcs[i := Claiming])
    case Claiming => b == a.(pcs := a.pcs[i := Linking], temps := a.temps[recs[i].runId := recs[i]])
    case Linking =>
      if a.slot.Absent? then
        recs[i].runId in a.temps && b == a.(slot := Stored(a.temps[recs[i].runId]),
            temps := a.temps - {recs[i].runId}, pcs := a.pcs[i := Won])
      else b == a.(temps := a.temps - {recs[i].runId}, pcs := a.pcs[i := Contended])
    case Contended =>
      if a.slot.Stored? then b == a.(pcs := a.pcs[i := Told(a.slot.rec)]) else b == a.(pcs := a.pcs[i := Vanished])
    case _ => b == a
  }

  ghost predicate RaceStarts(recs: seq<Record>, a: Race) {
    a == Race(Absent, map[], seq(|recs|, _ => Start))
  }

  ghost predicate DistinctRuns(recs: seq<Record>) {
    forall i, j :: 0 <= i < j < |recs| ==> recs[i].runId != recs[j].runId
  }

  ghost predicate RaceHistory(recs: seq<Record>, h: seq<Race>) {
    && |h| > 0 && RaceStarts(recs, h[0])
    && (forall n :: 0 <= n < |h| ==> |h[n].pcs| == |recs|)
    && forall n :: 0 <= n < |h| - 1 ==> RaceStep(recs, h[n], h[n + 1])
  }

  ghost predicate RaceStep(recs: seq<Record>, a: Race, b: Race)
    requires |a.pcs| == |recs|
  {
    exists i :: 0 <= i < |recs| && RacerStep(recs, a, b, i)
  }

  ghost predicate RaceInv(recs: seq<Record>, a: Race) {
    && |a.pcs| == |recs| && !a.slot.Unreadable?
    && (forall i :: 0 <= i < |recs| ==> RacerInv(recs, a, i))
    && (a.slot.Stored? ==> exists w :: 0 <= w < |recs| && a.pcs[w] == Won && a.slot.rec == recs[w])
  }

  ghost predicate RacerInv(recs: seq<Record>, a: Race, i: nat)
    requires i < |recs| && |a.pcs| == |recs|
  {
    match a.pcs[i]
    case Linking => recs[i].runId in a.temps && a.temps[recs[i].runId] == recs[i]
    case Contended => a.slot.Stored?
    case Won => a.slot == Stored(recs[i])
    case Told(r) => a.slot == Stored(r)
    case Vanished => false
    case _ => true
  }

  lemma RaceStepKeeps(recs: seq<Record>, a: Race, b: Race, i: nat)
    requires DistinctRuns(recs) && RaceInv(recs, a) && i < |recs| && RacerStep(recs, a, b, i)
    ensures RaceInv(recs, b)
  {
    assert RacerInv(recs, a, i);
    forall j | 0 <= j < |recs| ensures RacerInv(recs, b, j) {
      assert RacerInv(recs, a, j);
      if j != i { assert recs[i].runId != recs[j].runId; }
    }
    if a.slot.Stored? {
      var w :| 0 <= w < |recs| && a.pcs[w] == Won && a.slot.rec == recs[w];
      assert b.slot == a.slot && b.pcs[w] == Won;
    } else if b.slot.Stored? {
      assert b.pcs[i] == Won && b.slot.rec == recs[i];
    }
  }

  lemma {:induction false} RaceInvHolds(recs: seq<Record>, h: seq<Race>, n: nat)
    requires DistinctRuns(recs) && RaceHistory(recs, h) && n < |h|
    ensures RaceInv(recs, h[n])
  {
    if n > 0 {
      RaceInvHolds(recs, h, n - 1);
      var m := n - 1;
      assert RaceStep(recs, h[m], h[m + 1]);
      var i :| 0 <= i < |recs| && RacerStep(recs, h[m], h[m + 1], i);
      RaceStepKeeps(recs, h[m], h[m + 1], i);
    }
  }

  ghost predicate Finished(p: Pc) { p.Won? || p.Told? || p.Vanished? }

  /** With no lock and nobody releasing, every interleaving of racing reservers has at most one
      winner; the file holds the winner's record, everybody else who has an answer was told
      that record, nobody sees the reservation vanish, and once anyone has finished there is
      a winner. */
  lemma RaceHasOneWinner(recs: seq<Record>, h: seq<Race>, n: nat)
    requires DistinctRuns(recs) && RaceHistory(recs, h) && n < |h|
    ensures forall i, j :: 0 <= i < |recs| && 0 <= j < |recs| && h[n].pcs[i].Won? && h[n].pcs[j].Won? ==> i == j
    ensures forall i, j :: 0 <= i < |recs| && 0 <= j < |recs| && h[n].pcs[i].Won? && h[n].pcs[j].Told? ==>
            h[n].pcs[j].rec == recs[i]
    ensures forall i :: 0 <= i < |recs| ==> !h[n].pcs[i].Vanished?
    ensures (exists i :: 0 <= i < |recs| && Finished(h[n].pcs[i])) ==>
              exists w :: 0 <= w < |recs| && h[n].pcs[w].Won? && h[n].slot == Stored(recs[w])
  {
    RaceInvHolds(recs, h, n);
    forall i | 0 <= i < |recs| ensures !h[n].pcs[i].Vanished? { assert RacerInv(recs, h[n], i); }
    forall i, j | 0 <= i < |recs| && 0 <= j < |recs| && h[n].pcs[i].Won? && h[n].pcs[j].Won? ensures i == j {
      WinnerIsSeen(recs, h[n], i, j);
    }
    forall i, j | 0 <= i < |recs| && 0 <= j < |recs| && h[n].pcs[i].Won? && h[n].pcs[j].Told?
      ensures h[n].pcs[j].rec == recs[i]
    {
      WinnerIsSeen(recs, h[n], i, j);
    }
    if i :| 0 <= i < |recs| && Finished(h[n].pcs[i]) { assert RacerInv(recs, h[n], i); }
  }

  lemma WinnerIsSeen(recs: seq<Record>, a: Race, i: nat, j: nat)
    requires DistinctRuns(recs) && RaceInv(recs, a) && i < |recs| && j < |recs| && a.pcs[i].Won?
    ensures a.pcs[j].Won? ==> i == j
    ensures a.pcs[j].Told? ==> a.pcs[j].rec == recs[i]
  {
    assert RacerInv(recs, a, i) && RacerInv(recs, a, j);
  }
}
