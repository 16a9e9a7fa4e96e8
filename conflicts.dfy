/** The conflict detector of the appointment controller: does a proposed window
    collide with a stored appointment that still holds its time? */
module Conflicts {
  import opened Wrappers
  import opened Records
  import opened Queries

  /** The statuses that hold a time slot; the comparison is on the stored text. */
  predicate Occupying(s: Status) {
    StatusName(s) in {"pending", "confirmed", "in_progress"}
  }

  predicate OccupyingRow(a: Appointment) {
    Occupying(a.status)
  }

  /** The rows a conflict query can see at all. */
  function OccupyingRows(rows: seq<Appointment>): (r: seq<Appointment>)
    ensures forall a :: a in r <==> a in rows && Occupying(a.status)
  {
    Filter(rows, OccupyingRow)
  }

  /** The three-case test of the query: the stored window `[s, e)` covers the
      proposed start, or covers the proposed end, or lies inside the proposed
      window. Every half-open overlap is caught, and for non-empty windows it
      catches nothing else. */
  function Overlaps(s: int, e: int, start: int, end: int): (r: bool)
    ensures s < end && start < e ==> r
    ensures s < e && start < end && r ==> s < end && start < e
  {
    (s <= start && e > start) || (s < end && e >= end) || (s >= start && e <= end)
  }

  /** The optional filters: a truthy provider id keeps that provider's rows only,
      a truthy excluded id drops the row with that id. */
  predicate InScope(a: Appointment, providerId: Option<int>, excludeId: Option<int>) {
    && (Truthy(providerId) ==> a.providerId == providerId)
    && (Truthy(excludeId) ==> a.id != excludeId.value)
  }

  predicate Blocks(a: Appointment, providerId: Option<int>, start: int, end: int, excludeId: Option<int>) {
    Occupying(a.status) && Overlaps(a.startTime, a.endTime, start, end) && InScope(a, providerId, excludeId)
  }

  /** `_check_conflicts`: the query finds a first row. */
  function HasConflict(rows: seq<Appointment>, providerId: Option<int>, start: int, end: int, excludeId: Option<int>): (r: bool)
    ensures r <==> exists i :: 0 <= i < |rows| && Blocks(rows[i], providerId, start, end, excludeId)
  {
    FirstIndex(rows, (a: Appointment) => Blocks(a, providerId, start, end, excludeId)).Some?
  }

  /** Completed, cancelled and unlisted appointments never cause a conflict:
      the answer is the same over the occupying rows alone. */
  lemma OnlyOccupyingRowsCount(rows: seq<Appointment>, providerId: Option<int>, start: int, end: int, excludeId: Option<int>)
    ensures HasConflict(rows, providerId, start, end, excludeId) ==
            HasConflict(OccupyingRows(rows), providerId, start, end, excludeId)
  {
    if HasConflict(rows, providerId, start, end, excludeId) {
      var i :| 0 <= i < |rows| && Blocks(rows[i], providerId, start, end, excludeId);
      BlockerIsOccupying(rows, i, providerId, start, end, excludeId);
    }
    if HasConflict(OccupyingRows(rows), providerId, start, end, excludeId) {
      var occ := OccupyingRows(rows);
      var j :| 0 <= j < |occ| && Blocks(occ[j], providerId, start, end, excludeId);
      OccupyingBlockerIsRow(rows, j, providerId, start, end, excludeId);
    }
  }

  lemma BlockerIsOccupying(rows: seq<Appointment>, i: int, providerId: Option<int>, start: int, end: int, excludeId: Option<int>)
    requires 0 <= i < |rows| && Blocks(rows[i], providerId, start, end, excludeId)
    ensures HasConflict(OccupyingRows(rows), providerId, start, end, excludeId)
  {
    var occ := OccupyingRows(rows);
    assert rows[i] in occ;
    var j :| 0 <= j < |occ| && occ[j] == rows[i];
    assert Blocks(occ[j], providerId, start, end, excludeId);
  }

  lemma OccupyingBlockerIsRow(rows: seq<Appointment>, j: int, providerId: Option<int>, start: int, end: int, excludeId: Option<int>)
    requires 0 <= j < |OccupyingRows(rows)| && Blocks(OccupyingRows(rows)[j], providerId, start, end, excludeId)
    ensures HasConflict(rows, providerId, start, end, excludeId)
  {
    var occ := OccupyingRows(rows);
    assert occ[j] in rows;
    var i :| 0 <= i < |rows| && rows[i] == occ[j];
    assert Blocks(rows[i], providerId, start, end, excludeId);
  }

  /** For non-empty stored windows the query is the half-open overlap test. */
  lemma ConflictIsHalfOpenOverlap(rows: seq<Appointment>, providerId: Option<int>, start: int, end: int, excludeId: Option<int>)
    requires start < end
    requires forall i :: 0 <= i < |rows| ==> rows[i].startTime < rows[i].endTime
    ensures HasConflict(rows, providerId, start, end, excludeId) <==>
      exists i :: 0 <= i < |rows| && Occupying(rows[i].status) && InScope(rows[i], providerId, excludeId) &&
        rows[i].startTime < end && start < rows[i].endTime
  {
  }

  /** Back-to-back bookings do not collide: a window that starts when an
      appointment ends, or ends when it starts, is free of it. */
  lemma BackToBackIsFree(a: Appointment, providerId: Option<int>, duration: int)
    requires a.startTime < a.endTime && duration > 0
    ensures !HasConflict([a], providerId, a.endTime, a.endTime + duration, None)
    ensures !HasConflict([a], providerId, a.startTime - duration, a.startTime, None)
  {
  }

  /** The appointments of one provider. */
  function ProviderRows(rows: seq<Appointment>, providerId: int): (r: seq<Appointment>)
    ensures forall a :: a in r <==> a in rows && a.providerId == Some(providerId)
  {
    Filter(rows, (a: Appointment) => a.providerId == Some(providerId))
  }

  /** With a truthy provider id only that provider's appointments are checked. */
  lemma ProviderScope(rows: seq<Appointment>, providerId: int, start: int, end: int, excludeId: Option<int>)
    requires providerId != 0
    ensures HasConflict(rows, Some(providerId), start, end, excludeId) ==
            HasConflict(ProviderRows(rows, providerId), None, start, end, excludeId)
  {
    var mine := ProviderRows(rows, providerId);
    if HasConflict(rows, Some(providerId), start, end, excludeId) {
      var i :| 0 <= i < |rows| && Blocks(rows[i], Some(providerId), start, end, excludeId);
      ScopedBlock(rows[i], providerId, start, end, excludeId);
      assert rows[i] in mine;
      var j :| 0 <= j < |mine| && mine[j] == rows[i];
    }
    if HasConflict(mine, None, start, end, excludeId) {
      ProviderRowConflict(rows, providerId, start, end, excludeId);
    }
  }

  lemma ProviderRowConflict(rows: seq<Appointment>, providerId: int, start: int, end: int, excludeId: Option<int>)
    requires providerId != 0
    requires HasConflict(ProviderRows(rows, providerId), None, start, end, excludeId)
    ensures HasConflict(rows, Some(providerId), start, end, excludeId)
  {
    var mine := ProviderRows(rows, providerId);
    var j :| 0 <= j < |mine| && Blocks(mine[j], None, start, end, excludeId);
    ScopedBlock(mine[j], providerId, start, end, excludeId);
    assert mine[j] in rows;
    var i :| 0 <= i < |rows| && rows[i] == mine[j];
  }

  lemma ScopedBlock(a: Appointment, providerId: int, start: int, end: int, excludeId: Option<int>)
    requires providerId != 0
    ensures Blocks(a, Some(providerId), start, end, excludeId) <==>
            a.providerId == Some(providerId) && Blocks(a, None, start, end, excludeId)
  {
  }

  /** With an absent or zero provider id every provider's appointments are
      checked together. */
  lemma FalsyProviderChecksAll(rows: seq<Appointment>, providerId: Option<int>, start: int, end: int, excludeId: Option<int>)
    requires !Truthy(providerId)
    ensures HasConflict(rows, providerId, start, end, excludeId) == HasConflict(rows, None, start, end, excludeId)
  {
    if HasConflict(rows, providerId, start, end, excludeId) {
      var i :| 0 <= i < |rows| && Blocks(rows[i], providerId, start, end, excludeId);
      assert Blocks(rows[i], None, start, end, excludeId);
    }
    if HasConflict(rows, None, start, end, excludeId) {
      var i :| 0 <= i < |rows| && Blocks(rows[i], None, start, end, excludeId);
      assert Blocks(rows[i], providerId, start, end, excludeId);
    }
  }

  /** The appointment whose id is excluded never counts, wherever it sits:
      inserting it at any position of the table leaves the verdict as it was. */
  lemma ExcludedNeverCounts(rows: seq<Appointment>, pos: nat, a: Appointment, providerId: Option<int>, start: int, end: int)
    requires a.id != 0 && pos <= |rows|
    ensures HasConflict(rows[..pos] + [a] + rows[pos..], providerId, start, end, Some(a.id)) ==
            HasConflict(rows, providerId, start, end, Some(a.id))
  {
    var all := rows[..pos] + [a] + rows[pos..];
    assert |all| == |rows| + 1;
    if HasConflict(all, providerId, start, end, Some(a.id)) {
      var i :| 0 <= i < |all| && Blocks(all[i], providerId, start, end, Some(a.id));
      if i < pos {
        assert all[i] == rows[i];
      } else {
        assert i != pos;
        assert all[i] == rows[i - 1];
      }
    }
    if HasConflict(rows, providerId, start, end, Some(a.id)) {
      var i :| 0 <= i < |rows| && Blocks(rows[i], providerId, start, end, Some(a.id));
      if i < pos {
        assert all[i] == rows[i];
      } else {
        assert all[i + 1] == rows[i];
      }
    }
  }

  /** No provider holds two occupying appointments whose windows overlap. */
  ghost predicate NoDoubleBooking(rows: seq<Appointment>) {
    forall i, j ::
      (0 <= i < |rows| && 0 <= j < |rows| && i != j &&
       Occupying(rows[i].status) && Occupying(rows[j].status) &&
       Truthy(rows[i].providerId) && rows[i].providerId == rows[j].providerId) ==>
      !(rows[i].startTime < rows[j].endTime && rows[j].startTime < rows[i].endTime)
  }

  /** Inserting an appointment that the detector cleared, under its own provider,
      keeps every provider free of double bookings. */
  lemma {:induction false} ClearedInsertKeepsNoDoubleBooking(rows: seq<Appointment>, a: Appointment)
    requires NoDoubleBooking(rows)
    requires !HasConflict(rows, a.providerId, a.startTime, a.endTime, None)
    ensures NoDoubleBooking(rows + [a])
  {
    var all := rows + [a];
    forall i, j | 0 <= i < |all| && 0 <= j < |all| && i != j &&
      Occupying(all[i].status) && Occupying(all[j].status) &&
      Truthy(all[i].providerId) && all[i].providerId == all[j].providerId
      ensures !(all[i].startTime < all[j].endTime && all[j].startTime < all[i].endTime)
    {
      if i == |rows| {
        assert !Blocks(rows[j], a.providerId, a.startTime, a.endTime, None);
      } else if j == |rows| {
        assert !Blocks(rows[i], a.providerId, a.startTime, a.endTime, None);
      } else {
        assert all[i] == rows[i] && all[j] == rows[j];
      }
    }
  }

  /** Replacing a row keeps every provider free of double bookings when the new
      row releases its slot, or holds the same slot for the same provider. */
  lemma {:induction false} ReplaceKeepsNoDoubleBooking(rows: seq<Appointment>, k: nat, b: Appointment)
    requires NoDoubleBooking(rows) && k < |rows|
    requires !Occupying(b.status) ||
      (Occupying(rows[k].status) && b.providerId == rows[k].providerId &&
       b.startTime == rows[k].startTime && b.endTime == rows[k].endTime)
    ensures NoDoubleBooking(rows[k := b])
  {
    var all := rows[k := b];
    forall i, j | 0 <= i < |all| && 0 <= j < |all| && i != j &&
      Occupying(all[i].status) && Occupying(all[j].status) &&
      Truthy(all[i].providerId) && all[i].providerId == all[j].providerId
      ensures !(all[i].startTime < all[j].endTime && all[j].startTime < all[i].endTime)
    {
      assert all[i].startTime == rows[i].startTime && all[i].endTime == rows[i].endTime;
      assert all[j].startTime == rows[j].startTime && all[j].endTime == rows[j].endTime;
      assert all[i].providerId == rows[i].providerId && all[j].providerId == rows[j].providerId;
    }
  }
}
