/**
 * The booking store: the list of booking records the browser keeps under
 * one `localStorage` key, with `saveBooking` (append), `hasConflict` (is a
 * slot taken) and the admin page's `cancel` (mark one id cancelled).
 * Reading and writing `localStorage` and the JSON round trip are not part
 * of this model; the list is a field of a store object.
 */
module Store {
  import opened Options
  import opened Text
  import opened Times

  datatype Status = Tentative | Confirmed | Cancelled

  /** A stored booking; `startTime` and `endTime` are `HH:mm` texts, `createdAt` epoch milliseconds. */
  datatype BookingRecord = BookingRecord(
    id: string,
    serviceId: string,
    serviceName: string,
    durationMinutes: nat,
    dateISO: string,
    startTime: string,
    endTime: string,
    name: string,
    email: string,
    phone: Option<string>,
    status: Status,
    createdAt: int)

  /** `!(end <= b.startTime || start >= b.endTime)`, with string comparison. */
  predicate Overlaps(b: BookingRecord, start: string, end: string) {
    !(LessEq(end, b.startTime) || LessEq(b.endTime, start))
  }

  /** A stored booking that takes the slot: not cancelled, on the same date, overlapping it. */
  predicate Blocks(b: BookingRecord, dateISO: string, start: string, end: string) {
    b.status != Cancelled && b.dateISO == dateISO && Overlaps(b, start, end)
  }

  /** Some stored booking takes the slot. */
  predicate Conflicts(bs: seq<BookingRecord>, dateISO: string, start: string, end: string) {
    exists b :: b in bs && Blocks(b, dateISO, start, end)
  }

  /** `filter((b) => b.status !== "cancelled" && b.dateISO === dateISO)`, keeping the stored order. */
  function ActiveOn(bs: seq<BookingRecord>, dateISO: string): (r: seq<BookingRecord>)
    ensures |r| <= |bs|
    ensures forall b :: b in r <==> b in bs && b.status != Cancelled && b.dateISO == dateISO
  {
    if bs == [] then []
    else
      assert bs == [bs[0]] + bs[1..];
      var keep := bs[0].status != Cancelled && bs[0].dateISO == dateISO;
      (if keep then [bs[0]] else []) + ActiveOn(bs[1..], dateISO)
  }

  /** The admin page's `cancel(id)`: every record with that id is marked cancelled, the others are kept. */
  function CancelIn(bs: seq<BookingRecord>, id: string): seq<BookingRecord> {
    seq(|bs|, i requires 0 <= i < |bs| => if bs[i].id == id then bs[i].(status := Cancelled) else bs[i])
  }

  class BookingStore {
    var bookings: seq<BookingRecord>

    /** An empty store, as `getStoredBookings` reads it when nothing has been saved. */
    constructor ()
      ensures bookings == []
    {
      bookings := [];
    }

    /** `saveBooking(b)`: the record is pushed at the end; nothing else changes. */
    method Save(b: BookingRecord)
      modifies this
      ensures bookings == old(bookings) + [b]
    {
      bookings := bookings + [b];
    }

    /** `hasConflict(dateISO, start, end)`. */
    method HasConflict(dateISO: string, start: string, end: string) returns (c: bool)
      ensures c <==> Conflicts(bookings, dateISO, start, end)
    {
      var all := ActiveOn(bookings, dateISO);
      for i := 0 to |all|
        invariant forall k :: 0 <= k < i ==> !Overlaps(all[k], start, end)
      {
        if Overlaps(all[i], start, end) {
          assert all[i] in all;
          return true;
        }
      }
      assert forall b :: b in all ==> !Overlaps(b, start, end);
      return false;
    }

    /** The admin page's `cancel(id)`. */
    method Cancel(id: string)
      modifies this
      ensures bookings == CancelIn(old(bookings), id)
    {
      bookings := CancelIn(bookings, id);
    }
  }

  /** On well-formed times the test is the half-open interval overlap `[start, end)` against `[b.startTime, b.endTime)`. */
  lemma OverlapsByMinutes(b: BookingRecord, start: string, end: string)
    requires IsTime(start) && IsTime(end) && IsTime(b.startTime) && IsTime(b.endTime)
    ensures Overlaps(b, start, end)
        <==> Minutes(start) < Minutes(b.endTime) && Minutes(b.startTime) < Minutes(end)
  {
    LessIsEarlier(end, b.startTime);
    LessIsEarlier(b.endTime, start);
  }

  /** A slot that starts when a booking ends, or ends when it starts, is never taken by it. */
  lemma TouchingNeverBlocks(b: BookingRecord, dateISO: string, start: string, end: string)
    requires start == b.endTime || end == b.startTime
    ensures !Blocks(b, dateISO, start, end)
  {
  }

  /** Saving a record adds exactly the slots that record takes. */
  lemma ConflictsAfterSave(bs: seq<BookingRecord>, b: BookingRecord, dateISO: string, start: string, end: string)
    ensures Conflicts(bs + [b], dateISO, start, end)
        <==> Conflicts(bs, dateISO, start, end) || Blocks(b, dateISO, start, end)
  {
    if Blocks(b, dateISO, start, end) {
      assert b in bs + [b];
    }
    if Conflicts(bs, dateISO, start, end) {
      var c :| c in bs && Blocks(c, dateISO, start, end);
      assert c in bs + [b];
    }
  }

  /** A cancelled record, or one on another date, never makes a slot taken. */
  lemma InertRecordsNeverConflict(bs: seq<BookingRecord>, b: BookingRecord, dateISO: string, start: string, end: string)
    requires b.status == Cancelled || b.dateISO != dateISO
    ensures Conflicts(bs + [b], dateISO, start, end) <==> Conflicts(bs, dateISO, start, end)
  {
    ConflictsAfterSave(bs, b, dateISO, start, end);
  }

  /** Cancelling changes only the status of the records with that id. */
  lemma CancelKeepsRecords(bs: seq<BookingRecord>, id: string)
    ensures |CancelIn(bs, id)| == |bs|
    ensures forall i :: 0 <= i < |bs| && bs[i].id != id ==> CancelIn(bs, id)[i] == bs[i]
    ensures forall i :: 0 <= i < |bs| && bs[i].id == id ==>
              CancelIn(bs, id)[i].status == Cancelled && CancelIn(bs, id)[i].(status := bs[i].status) == bs[i]
  {
  }

  /** After a cancel, a slot is taken exactly when some record with another id takes it. */
  lemma ConflictsAfterCancel(bs: seq<BookingRecord>, id: string, dateISO: string, start: string, end: string)
    ensures Conflicts(CancelIn(bs, id), dateISO, start, end)
        <==> exists b :: b in bs && b.id != id && Blocks(b, dateISO, start, end)
  {
    var r := CancelIn(bs, id);
    if Conflicts(r, dateISO, start, end) {
      var c :| c in r && Blocks(c, dateISO, start, end);
      var i :| 0 <= i < |r| && r[i] == c;
      assert bs[i] == c && bs[i] in bs;
    }
    if exists b :: b in bs && b.id != id && Blocks(b, dateISO, start, end) {
      var c :| c in bs && c.id != id && Blocks(c, dateISO, start, end);
      var i :| 0 <= i < |bs| && bs[i] == c;
      assert r[i] == c && r[i] in r;
    }
  }
}
