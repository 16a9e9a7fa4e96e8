/** The slot generator of the appointment controller: the 30-minute grid of a
    business day, each start paired with the service's duration and tagged with
    whether the conflict detector clears it. */
module Slots {
  import opened Wrappers
  import opened Clock
  import opened Records
  import opened Conflicts
  import opened Store

  const SlotStep: int := 30

  datatype Slot = Slot(startTime: int, endTime: int, available: bool)

  /** `u` lies on the grid that starts at `first`. */
  predicate OnGrid(u: int, first: int) {
    u >= first && (u - first) % SlotStep == 0
  }

  /** The generator keeps a start when the hour of its end is at most `close`. */
  predicate Kept(u: int, duration: int, close: int) {
    HourOf(u + duration) <= close
  }

  /** The slots from grid point `t` on, up to but excluding `stop`; `free` says
      whether a window is clear of conflicts. */
  function SlotsFrom(free: (int, int) -> bool, duration: int, t: int, stop: int, close: int): seq<Slot>
    decreases stop - t
  {
    if t >= stop then []
    else
      var e := t + duration;
      (if HourOf(e) <= close then [Slot(t, e, free(t, e))] else []) +
      SlotsFrom(free, duration, t + SlotStep, stop, close)
  }

  /** The conflict detector's verdict on a window, for no excluded appointment. */
  function FreeOf(rows: seq<Appointment>, providerId: Option<int>): (int, int) -> bool {
    (s: int, e: int) => !HasConflict(rows, providerId, s, e, None)
  }

  /** One slot as the generator builds it from grid point `t`. */
  predicate WellBuilt(s: Slot, free: (int, int) -> bool, duration: int, t: int, stop: int, close: int) {
    && OnGrid(s.startTime, t) && s.startTime < stop
    && s.endTime == s.startTime + duration
    && Kept(s.startTime, duration, close)
    && s.available == free(s.startTime, s.endTime)
  }

  /** One step of the generator: the slot at `t`, if kept, before the rest. */
  lemma UnfoldSlotsFrom(free: (int, int) -> bool, duration: int, t: int, stop: int, close: int)
    requires t < stop
    ensures Kept(t, duration, close) ==>
      SlotsFrom(free, duration, t, stop, close) ==
      [Slot(t, t + duration, free(t, t + duration))] + SlotsFrom(free, duration, t + SlotStep, stop, close)
    ensures !Kept(t, duration, close) ==>
      SlotsFrom(free, duration, t, stop, close) == SlotsFrom(free, duration, t + SlotStep, stop, close)
  {
  }

  /** Every slot is built from a grid start before `stop`. */
  lemma {:induction false} SlotsFromSound(free: (int, int) -> bool, duration: int, t: int, stop: int, close: int, k: nat)
    requires k < |SlotsFrom(free, duration, t, stop, close)|
    ensures WellBuilt(SlotsFrom(free, duration, t, stop, close)[k], free, duration, t, stop, close)
    decreases stop - t
  {
    var r := SlotsFrom(free, duration, t, stop, close);
    var rest := SlotsFrom(free, duration, t + SlotStep, stop, close);
    var head := if Kept(t, duration, close) then 1 else 0;
    UnfoldSlotsFrom(free, duration, t, stop, close);
    if k >= head {
      assert r[k] == rest[k - head];
      SlotsFromSound(free, duration, t + SlotStep, stop, close, k - head);
      GridShift(r[k].startTime, t);
    }
  }

  /** No slot starts before the grid point the generator starts from. */
  lemma {:induction false} SlotsFromStartLater(free: (int, int) -> bool, duration: int, t: int, stop: int, close: int, k: nat)
    requires k < |SlotsFrom(free, duration, t, stop, close)|
    ensures SlotsFrom(free, duration, t, stop, close)[k].startTime >= t
    decreases stop - t
  {
    var r := SlotsFrom(free, duration, t, stop, close);
    var rest := SlotsFrom(free, duration, t + SlotStep, stop, close);
    var head := if Kept(t, duration, close) then 1 else 0;
    UnfoldSlotsFrom(free, duration, t, stop, close);
    if k >= head {
      assert r[k] == rest[k - head];
      SlotsFromStartLater(free, duration, t + SlotStep, stop, close, k - head);
    }
  }

  /** Later slots start at least one step after earlier ones. */
  lemma {:induction false} SlotsFromIncreasing(free: (int, int) -> bool, duration: int, t: int, stop: int, close: int, i: nat, j: nat)
    requires i < j < |SlotsFrom(free, duration, t, stop, close)|
    ensures SlotsFrom(free, duration, t, stop, close)[i].startTime + SlotStep <=
            SlotsFrom(free, duration, t, stop, close)[j].startTime
    decreases stop - t
  {
    var r := SlotsFrom(free, duration, t, stop, close);
    var rest := SlotsFrom(free, duration, t + SlotStep, stop, close);
    UnfoldSlotsFrom(free, duration, t, stop, close);
    if !Kept(t, duration, close) {
      SlotsFromIncreasing(free, duration, t + SlotStep, stop, close, i, j);
    } else if i == 0 {
      assert r[0].startTime == t && r[j] == rest[j - 1];
      SlotsFromStartLater(free, duration, t + SlotStep, stop, close, j - 1);
    } else {
      assert r[i] == rest[i - 1] && r[j] == rest[j - 1];
      SlotsFromIncreasing(free, duration, t + SlotStep, stop, close, i - 1, j - 1);
    }
  }

  /** A point on the grid from the next step is on the grid from `t`. */
  lemma GridShift(u: int, t: int)
    requires OnGrid(u, t + SlotStep)
    ensures OnGrid(u, t)
  {
  }

  /** Every grid start before `stop` whose end stays within the closing hour has
      its slot. */
  lemma {:induction false} SlotsFromComplete(free: (int, int) -> bool, duration: int, t: int, stop: int, close: int, u: int)
    requires OnGrid(u, t) && u < stop && Kept(u, duration, close)
    ensures exists k :: (0 <= k < |SlotsFrom(free, duration, t, stop, close)| &&
      SlotsFrom(free, duration, t, stop, close)[k].startTime == u)
    decreases stop - t
  {
    var r := SlotsFrom(free, duration, t, stop, close);
    var rest := SlotsFrom(free, duration, t + SlotStep, stop, close);
    UnfoldSlotsFrom(free, duration, t, stop, close);
    if u == t {
      assert r[0].startTime == u;
    } else {
      GridNext(u, t);
      SlotsFromComplete(free, duration, t + SlotStep, stop, close, u);
      var k :| 0 <= k < |rest| && rest[k].startTime == u;
      if Kept(t, duration, close) {
        assert r[k + 1] == rest[k];
      } else {
        assert r[k] == rest[k];
      }
    }
  }

  /** A grid point after `t` is on the grid from the next step. */
  lemma GridNext(u: int, t: int)
    requires OnGrid(u, t) && u != t
    ensures OnGrid(u, t + SlotStep)
  {
  }

  /** The slots of the day of `date`, from the opening hour up to the closing hour. */
  function DaySlots(rows: seq<Appointment>, providerId: Option<int>, duration: int, date: int, cfg: Config): seq<Slot> {
    SlotsFrom(FreeOf(rows, providerId), duration, Opening(date, cfg), Closing(date, cfg), cfg.businessHoursEnd)
  }

  function Opening(date: int, cfg: Config): int {
    DayStart(date) + MinutesPerHour * cfg.businessHoursStart
  }

  function Closing(date: int, cfg: Config): int {
    DayStart(date) + MinutesPerHour * cfg.businessHoursEnd
  }

  /** What each of a day's slots is: a start on the 30-minute grid from the
      opening hour, before the closing hour; an end one duration later, in an
      hour no later than the closing hour; available exactly when no conflict is
      found. */
  lemma DaySlotsSound(rows: seq<Appointment>, providerId: Option<int>, duration: int, date: int, cfg: Config)
    ensures var r := DaySlots(rows, providerId, duration, date, cfg);
      forall k :: 0 <= k < |r| ==>
        && OnGrid(r[k].startTime, Opening(date, cfg)) && r[k].startTime < Closing(date, cfg)
        && r[k].endTime == r[k].startTime + duration
        && HourOf(r[k].endTime) <= cfg.businessHoursEnd
        && r[k].available == !HasConflict(rows, providerId, r[k].startTime, r[k].endTime, None)
  {
    var free, first, stop, close := FreeOf(rows, providerId), Opening(date, cfg), Closing(date, cfg), cfg.businessHoursEnd;
    var r := DaySlots(rows, providerId, duration, date, cfg);
    assert r == SlotsFrom(free, duration, first, stop, close);
    forall k | 0 <= k < |r|
      ensures WellBuilt(r[k], free, duration, first, stop, close)
    {
      SlotsFromSound(free, duration, first, stop, close, k);
    }
  }

  /** A day's slots are in strictly increasing order of start. */
  lemma DaySlotsIncreasing(rows: seq<Appointment>, providerId: Option<int>, duration: int, date: int, cfg: Config)
    ensures var r := DaySlots(rows, providerId, duration, date, cfg);
      forall i, j :: 0 <= i < j < |r| ==> r[i].startTime < r[j].startTime
  {
    var free, first, stop, close := FreeOf(rows, providerId), Opening(date, cfg), Closing(date, cfg), cfg.businessHoursEnd;
    var r := DaySlots(rows, providerId, duration, date, cfg);
    assert r == SlotsFrom(free, duration, first, stop, close);
    forall i, j | 0 <= i < j < |r|
      ensures r[i].startTime < r[j].startTime
    {
      SlotsFromIncreasing(free, duration, first, stop, close, i, j);
    }
  }

  /** No grid start of the business day whose end hour is within the closing
      hour is missing from the day's slots. */
  lemma DaySlotsComplete(rows: seq<Appointment>, providerId: Option<int>, duration: int, date: int, cfg: Config, u: int)
    requires OnGrid(u, Opening(date, cfg)) && u < Closing(date, cfg) && Kept(u, duration, cfg.businessHoursEnd)
    ensures var r := DaySlots(rows, providerId, duration, date, cfg);
      exists k :: 0 <= k < |r| && r[k].startTime == u
  {
    var free, first, stop, close := FreeOf(rows, providerId), Opening(date, cfg), Closing(date, cfg), cfg.businessHoursEnd;
    var r := DaySlots(rows, providerId, duration, date, cfg);
    assert r == SlotsFrom(free, duration, first, stop, close);
    SlotsFromComplete(free, duration, first, stop, close, u);
    var k :| 0 <= k < |r| && r[k].startTime == u;
  }

  /** Because only the hour of the end is compared, with the shipped hours an
      hour-long service on a free Monday gets a slot from 17:30 to 18:30. */
  lemma LastSlotEndsAfterClosing()
    ensures exists k :: (0 <= k < |DaySlots([], None, 60, 0, Shipped)| &&
      DaySlots([], None, 60, 0, Shipped)[k] == Slot(17 * 60 + 30, 18 * 60 + 30, true))
  {
    var u := 17 * 60 + 30;
    var r := DaySlots([], None, 60, 0, Shipped);
    assert Opening(0, Shipped) == 8 * 60 && Closing(0, Shipped) == 18 * 60;
    assert HourOf(u + 60) == 18;
    assert OnGrid(u, 8 * 60) && Kept(u, 60, 18);
    DaySlotsComplete([], None, 60, 0, Shipped, u);
    DaySlotsSound([], None, 60, 0, Shipped);
    var k :| 0 <= k < |r| && r[k].startTime == u;
    assert !HasConflict([], None, u, 18 * 60 + 30, None);
    assert r[k] == Slot(u, 18 * 60 + 30, true);
  }

  /** By the same rule a 90-minute service gets no slot at 17:30, although its
      start is as far inside business hours as the hour-long one's. */
  lemma NoLateStartForLongService()
    ensures forall k :: 0 <= k < |DaySlots([], None, 90, 0, Shipped)| ==>
      DaySlots([], None, 90, 0, Shipped)[k].startTime != 17 * 60 + 30
  {
    assert HourOf(17 * 60 + 30 + 90) == 19;
    DaySlotsSound([], None, 90, 0, Shipped);
  }

  /** `get_available_slots`: 404 for an unknown service, 500 for a date that does
      not parse, otherwise the slots the loop appends, in order. */
  method AvailableSlots(services: seq<Service>, appointments: seq<Appointment>, serviceId: int, date: Parsed,
                        providerId: Option<int>, cfg: Config)
    returns (r: Result<seq<Slot>, Error>)
    requires cfg.WellFormed()
    ensures ServiceIndex(services, serviceId).None? ==> r == Err(Error(404, ServiceNotFound))
    ensures ServiceIndex(services, serviceId).Some? && date.Unparseable? ==> r == Err(Error(500, MalformedDate))
    ensures ServiceIndex(services, serviceId).Some? && date.At? ==>
      r == Ok(DaySlots(appointments, providerId, services[ServiceIndex(services, serviceId).value].durationMinutes,
                       date.minutes, cfg))
  {
    var found := ServiceIndex(services, serviceId);
    if found.None? {
      return Err(Error(404, ServiceNotFound));
    }
    if date.Unparseable? {
      return Err(Error(500, MalformedDate));
    }
    var duration := services[found.value].durationMinutes;
    var slots := CollectSlots(appointments, providerId, duration, Opening(date.minutes, cfg),
                              Closing(date.minutes, cfg), cfg.businessHoursEnd);
    return Ok(slots);
  }

  /** The loop of `get_available_slots`: walks the grid from `first` while before
      `stop`, appending a slot for every start whose end hour is at most `close`. */
  method CollectSlots(appointments: seq<Appointment>, providerId: Option<int>, duration: int, first: int, stop: int, close: int)
    returns (slots: seq<Slot>)
    ensures slots == SlotsFrom(FreeOf(appointments, providerId), duration, first, stop, close)
  {
    ghost var free := FreeOf(appointments, providerId);
    var current := first;
    slots := [];
    while current < stop
      invariant slots + SlotsFrom(free, duration, current, stop, close) == SlotsFrom(free, duration, first, stop, close)
      decreases stop - current
    {
      var slotEnd := current + duration;
      AppendStep(slots, free, duration, current, stop, close);
      if HourOf(slotEnd) <= close {
        var available := !HasConflict(appointments, providerId, current, slotEnd, None);
        slots := slots + [Slot(current, slotEnd, available)];
      }
      current := current + SlotStep;
    }
    assert slots + SlotsFrom(free, duration, current, stop, close) == slots;
  }

  /** One turn of the loop: appending the slot at `t`, if kept, and moving on
      leaves the slots still to come unchanged. */
  lemma AppendStep(slots: seq<Slot>, free: (int, int) -> bool, duration: int, t: int, stop: int, close: int)
    requires t < stop
    ensures Kept(t, duration, close) ==>
      slots + SlotsFrom(free, duration, t, stop, close) ==
      (slots + [Slot(t, t + duration, free(t, t + duration))]) + SlotsFrom(free, duration, t + SlotStep, stop, close)
    ensures !Kept(t, duration, close) ==>
      slots + SlotsFrom(free, duration, t, stop, close) == slots + SlotsFrom(free, duration, t + SlotStep, stop, close)
  {
    UnfoldSlotsFrom(free, duration, t, stop, close);
    var s := [Slot(t, t + duration, free(t, t + duration))];
    assert slots + (s + SlotsFrom(free, duration, t + SlotStep, stop, close)) ==
           (slots + s) + SlotsFrom(free, duration, t + SlotStep, stop, close);
  }
}
