/** One entry of the periodic task scheduler: its due check, its run count, and its database row. */
module Scheduler {
  import opened Text

  /** The fields of a periodic task that the entry reads and writes; times are points on one clock. */
  datatype Task = Task(
    enabled: bool, oneOff: bool, startTime: Option<int>, expires: Option<int>, totalRunCount: nat, lastRunAt: int,
    noChanges: bool)

  /** Whether the task runs now, and when to check again; none means never. */
  datatype SchedState = SchedState(isDue: bool, next: Option<int>)

  const RECHECK_DISABLED := 5

  predicate NotStarted(m: Task, now: int) {
    m.startTime.Some? && now < m.startTime.value
  }

  predicate Expired(m: Task, now: int) {
    m.expires.Some? && now > m.expires.value
  }

  predicate AlreadyRan(m: Task) {
    m.oneOff && m.totalRunCount > 0
  }

  /** The row after `save`: the run data always, the enabled flag on request. */
  function Saved(row: Task, m: Task, withEnabled: bool): Task {
    row.(lastRunAt := m.lastRunAt, totalRunCount := m.totalRunCount, noChanges := m.noChanges,
         enabled := if withEnabled then m.enabled else row.enabled)
  }

  class ModelEntry {
    var model: Task
    var row: Option<Task>

    constructor (row: Task)
      ensures model == row && this.row == Some(row)
    {
      this.model := row;
      this.row := Some(row);
    }

    method Save(withEnabled: bool)
      modifies this`row
      ensures row == if old(row).None? then None else Some(Saved(old(row).value, model, withEnabled))
    {
      if row.None? {
        return;
      }
      var obj := row.value;
      obj := obj.(lastRunAt := model.lastRunAt, totalRunCount := model.totalRunCount, noChanges := model.noChanges);
      if withEnabled {
        obj := obj.(enabled := model.enabled);
      }
      row := Some(obj);
    }

    /** `is_due`, given the answer of the schedule. */
    method IsDue(now: int, schedule: SchedState) returns (res: SchedState)
      modifies this
      ensures (model, res) == Checked(old(model), now, schedule)
      ensures row == if old(row).Some? && Disables(old(model), now) then Some(Saved(old(row).value, model, true))
                     else old(row)
    {
      if !model.enabled {
        return SchedState(false, Some(RECHECK_DISABLED));
      }
      if model.startTime.Some? && now < model.startTime.value {
        return SchedState(false, schedule.next);
      }
      if model.oneOff && model.enabled && model.totalRunCount > 0 {
        model := model.(enabled := false, totalRunCount := 0, noChanges := false);
        Save(true);
        return SchedState(false, None);
      }
      if model.expires.Some? && now > model.expires.value {
        model := model.(enabled := false, noChanges := false);
        Save(true);
        return SchedState(false, None);
      }
      res := schedule;
    }

    /** `__next__`: the run is counted unless the task expired in the meantime. */
    method Next(now: int, ranAt: int)
      modifies this`model
      ensures model == Counted(old(model), now, ranAt)
    {
      if model.expires.None? || now <= model.expires.value {
        model := model.(lastRunAt := ranAt, totalRunCount := model.totalRunCount + 1);
      }
      model := model.(noChanges := true);
    }

    /** One tick: the check and, if due, the reservation that precedes sending the task. */
    method Tick(now: int, schedule: SchedState, countAt: int) returns (dispatched: bool)
      modifies this
      ensures (model, dispatched) == Ticked(old(model), now, schedule, countAt)
      ensures row == if old(row).Some? && Disables(old(model), now) then Some(Saved(old(row).value, model, true))
                     else old(row)
    {
      var state := IsDue(now, schedule);
      if state.isDue {
        Next(countAt, countAt);
      }
      dispatched := state.isDue;
    }
  }

  // ----- what the methods compute -----

  /** The check switches the task off. */
  predicate Disables(m: Task, now: int) {
    m.enabled && !NotStarted(m, now) && (AlreadyRan(m) || Expired(m, now))
  }

  function Checked(m: Task, now: int, schedule: SchedState): (Task, SchedState) {
    if !m.enabled then (m, SchedState(false, Some(RECHECK_DISABLED)))
    else if NotStarted(m, now) then (m, SchedState(false, schedule.next))
    else if AlreadyRan(m) then (m.(enabled := false, totalRunCount := 0, noChanges := false), SchedState(false, None))
    else if Expired(m, now) then (m.(enabled := false, noChanges := false), SchedState(false, None))
    else (m, schedule)
  }

  function Counted(m: Task, now: int, ranAt: int): Task {
    (if Expired(m, now) then m else m.(lastRunAt := ranAt, totalRunCount := m.totalRunCount + 1)).(noChanges := true)
  }

  function Ticked(m: Task, now: int, schedule: SchedState, countAt: int): (Task, bool) {
    var (checked, state) := Checked(m, now, schedule);
    (if state.isDue then Counted(checked, countAt, countAt) else checked, state.isDue)
  }

  /** A task runs exactly when it is enabled, within its window, not a spent one-off, and its schedule says so. */
  lemma {:induction false} DispatchedWhen(m: Task, now: int, schedule: SchedState, countAt: int)
    ensures Ticked(m, now, schedule, countAt).1 <==>
            && m.enabled && schedule.isDue
            && (m.startTime.Some? ==> m.startTime.value <= now) && (m.expires.Some? ==> now <= m.expires.value)
            && (m.oneOff ==> m.totalRunCount == 0)
    ensures !m.enabled ==> Ticked(m, now, schedule, countAt) == (m, false)
  {
  }

  /**
   When the entry is checked again: a disabled one after five seconds, one that waits for its start as its
   schedule says, one that is switched off by the check never, and any other as its schedule says. Switching off
   takes back the run count of a spent one-off and changes nothing else of the task but its flags.
   */
  lemma {:induction false} RecheckedWhen(m: Task, now: int, schedule: SchedState)
    ensures var (after, res) := Checked(m, now, schedule);
            if !m.enabled then after == m && res == SchedState(false, Some(5))
            else if m.startTime.Some? && now < m.startTime.value then
              after == m && res == SchedState(false, schedule.next)
            else if (m.oneOff && m.totalRunCount > 0) || (m.expires.Some? && m.expires.value < now) then
              && res == SchedState(false, None) && !after.enabled && !after.noChanges
              && after.totalRunCount == (if m.oneOff then 0 else m.totalRunCount)
              && after.(enabled := true, totalRunCount := m.totalRunCount, noChanges := m.noChanges) == m
            else after == m && res == schedule
  {
  }

  /** A run is counted, with its time, unless the task expired before it was counted. */
  lemma {:induction false} RunCounted(m: Task, now: int, schedule: SchedState, countAt: int)
    requires Ticked(m, now, schedule, countAt).1
    ensures var after := Ticked(m, now, schedule, countAt).0; var late := m.expires.Some? && m.expires.value < countAt;
            && after.totalRunCount == m.totalRunCount + (if late then 0 else 1)
            && after.lastRunAt == (if late then m.lastRunAt else countAt) && after.noChanges
            && after.(totalRunCount := m.totalRunCount, lastRunAt := m.lastRunAt, noChanges := m.noChanges) == m
  {
  }

  // ----- runs of one entry -----

  /**
   The entry with its row; `dirty` says that a reservation has not been written yet, and `sent` counts
   how often the task was sent since it was last enabled.
   */
  datatype State = State(model: Task, row: Task, dirty: bool, sent: nat, clock: int)

  /**
   Ticks, writes of reserved entries, switching the task on in the database, and reading the schedule
   anew, which writes reserved entries first. Two more events lose a reservation: a write can fail, and
   writing the entry can itself read the schedule anew after the entry was taken off the list of
   reserved ones, so that the write finds the entry as it was in the database.
   */
  datatype Event =
    | Tick(now: int, schedule: SchedState, countAt: int)
    | Sync
    | EnableInDatabase
    | Reload
    | FailedWrite
    | RereadInSync

  predicate Timely(s: State, e: Event) {
    e.Tick? ==> s.clock <= e.now <= e.countAt
  }

  function Synced(s: State): State {
    if s.dirty then s.(row := Saved(s.row, s.model, false), dirty := false) else s
  }

  /** The entry as its row has it; switched on anew, it has not been sent. */
  function Reread(s: State): State {
    s.(model := s.row, sent := if !s.model.enabled && s.row.enabled then 0 else s.sent)
  }

  function Step(s: State, e: Event): State {
    match e
    case Tick(now, schedule, countAt) =>
      var (m, dispatched) := Ticked(s.model, now, schedule, countAt);
      var row := if Disables(s.model, now) then Saved(s.row, m, true) else s.row;
      State(m, row, s.dirty || dispatched, if dispatched then s.sent + 1 else s.sent, countAt)
    case Sync => Synced(s)
    case EnableInDatabase => s.(row := s.row.(enabled := true))
    case Reload => Reread(Synced(s))
    case FailedWrite => s.(dirty := false)
    case RereadInSync => if s.dirty then Synced(Reread(s)) else s
  }

  predicate Lossy(e: Event) {
    e.FailedWrite? || e.RereadInSync?
  }

  ghost predicate Run(states: seq<State>, events: seq<Event>) {
    && |states| == |events| + 1
    && forall i :: 0 <= i < |events| ==> Timely(states[i], events[i]) && states[i + 1] == Step(states[i], events[i])
  }

  /** An entry as read from its row, not sent since it was enabled. */
  predicate Initial(s: State) {
    s.model == s.row && !s.dirty && s.sent == 0
  }

  /** Something keeps a sent one-off from a second run: it is off, its run is counted, or it has expired. */
  predicate Guarded(s: State, m: Task) {
    s.sent == 0 || !s.model.enabled || m.totalRunCount > 0 || Expired(m, s.clock)
  }

  /** The entry is guarded, and so is its row once the reservation is written. */
  predicate Invariant(s: State) {
    && s.model.oneOff == s.row.oneOff && s.model.expires == s.row.expires && s.model.startTime == s.row.startTime
    && (s.model.enabled ==> s.row.enabled)
    && (s.dirty ==> s.sent > 0)
    && (s.sent > 0 ==> !NotStarted(s.model, s.clock))
    && (s.model.oneOff ==> s.sent <= 1 && Guarded(s, s.model) && (!s.dirty ==> Guarded(s, s.row)))
  }

  /** A reservation whose loss would let a one-off task run again. */
  predicate Needed(s: State) {
    && s.dirty && s.model.oneOff && s.model.enabled && s.row.enabled
    && s.row.totalRunCount == 0 && !Expired(s.row, s.clock)
  }

  lemma {:induction false} StepKeepsInvariant(s: State, e: Event)
    requires Invariant(s) && Timely(s, e) && !Lossy(e)
    ensures Invariant(Step(s, e))
  {
    if e.Tick? {
      TickKeepsInvariant(s, e.now, e.schedule, e.countAt);
    }
  }

  lemma TickKeepsInvariant(s: State, now: int, schedule: SchedState, countAt: int)
    requires Invariant(s) && s.clock <= now <= countAt
    ensures Invariant(Step(s, Tick(now, schedule, countAt)))
  {
    DispatchedWhen(s.model, now, schedule, countAt);
  }

  /** Losing a reservation keeps the invariant if and only if the reservation was not needed. */
  lemma {:induction false} LossKeepsInvariant(s: State, e: Event)
    requires Invariant(s) && Lossy(e)
    ensures Invariant(Step(s, e)) <==> !Needed(s)
  {
  }

  /** Times do not decrease, and no needed reservation is lost. */
  ghost predicate Safe(states: seq<State>, events: seq<Event>) {
    Run(states, events) && Initial(states[0]) &&
    forall i :: 0 <= i < |events| && Lossy(events[i]) ==> !Needed(states[i])
  }

  lemma {:induction false} RunKeepsInvariant(states: seq<State>, events: seq<Event>, i: nat)
    requires Safe(states, events) && i < |states|
    ensures Invariant(states[i])
  {
    if i > 0 {
      RunKeepsInvariant(states, events, i - 1);
      if Lossy(events[i - 1]) {
        LossKeepsInvariant(states[i - 1], events[i - 1]);
      } else {
        StepKeepsInvariant(states[i - 1], events[i - 1]);
      }
    }
  }

  /**
   One-off tasks: in every run with nondecreasing times that loses no needed reservation, a one-off
   task is sent at most once per enabling, also when it expires between the due check and the count,
   and when the schedule is read anew.
   */
  lemma {:induction false} OneOffRunsOnce(states: seq<State>, events: seq<Event>, i: nat)
    requires Safe(states, events) && i < |states|
    requires states[i].model.oneOff
    ensures states[i].sent <= 1
  {
    RunKeepsInvariant(states, events, i);
  }

  /** A disabled entry is not sent and does not change until the schedule is read anew. */
  lemma {:induction false} DisabledStays(states: seq<State>, events: seq<Event>, i: nat, j: nat)
    requires Run(states, events) && i <= j < |states| && !states[i].model.enabled
    requires forall k :: i <= k < j ==> !events[k].Reload? && !events[k].RereadInSync?
    ensures states[j].model == states[i].model && states[j].sent == states[i].sent
    decreases j
  {
    if i < j {
      DisabledStays(states, events, i, j - 1);
    }
  }

  const DUE := SchedState(true, None)

  /**
   Once a needed reservation is lost, the task is sent a second time when the schedule has been read
   anew and the task is due.
   */
  lemma {:induction false} LossRepeats(s: State, e: Event)
    requires Invariant(s) && Lossy(e) && Needed(s)
    ensures Step(Step(Step(s, e), Reload), Tick(s.clock, DUE, s.clock)).sent == 2
  {
    var r := Step(Step(s, e), Reload);
    assert r.model == s.row && r.sent == s.sent == 1;
    DispatchedWhen(r.model, s.clock, DUE, s.clock);
  }

  /** A run that sends a one-off task twice: its reservation is lost when writing it reads the schedule anew. */
  lemma {:induction false} LostReservation(m: Task, t: int) returns (states: seq<State>, events: seq<Event>)
    requires m.enabled && m.oneOff && m.totalRunCount == 0 && !NotStarted(m, t) && !Expired(m, t)
    ensures Run(states, events) && Initial(states[0]) && |states| == 4
    ensures events == [Tick(t, DUE, t), RereadInSync, Tick(t, DUE, t)] && Needed(states[1])
    ensures states[3].sent == 2
  {
    var first := State(m, m, false, 0, t);
    var once := Step(first, Tick(t, DUE, t));
    var lost := Step(once, RereadInSync);
    events := [Tick(t, DUE, t), RereadInSync, Tick(t, DUE, t)];
    states := [first, once, lost, Step(lost, Tick(t, DUE, t))];
    DispatchedWhen(m, t, DUE, t);
    assert lost.model.(noChanges := m.noChanges) == m;
  }

  /**
   A one-off that has run is switched off by the next check and starts anew when it is switched on again: once
   the schedule is read anew, the first check within its window that its schedule allows sends it.
   */
  lemma {:induction false} OneOffRunsAgain(s: State, off: Event, on: Event)
    requires Invariant(s) && s.model.enabled && s.model.oneOff && s.model.totalRunCount > 0
    requires off.Tick? && Timely(s, off) && !NotStarted(s.model, off.now)
    requires on.Tick? && off.countAt <= on.now <= on.countAt && on.schedule.isDue && !Expired(s.model, on.now)
    ensures !Step(s, off).model.enabled && Step(s, off).sent == s.sent
    ensures var again := Step(Step(Step(s, off), EnableInDatabase), Reload);
            again.sent == 0 && again.model.enabled && Step(again, on).sent == 1
  {
    var after := Step(s, off);
    var again := Step(Step(after, EnableInDatabase), Reload);
    DispatchedWhen(s.model, off.now, off.schedule, off.countAt);
    assert again.model.totalRunCount == 0 && again.model.enabled;
    DispatchedWhen(again.model, on.now, on.schedule, on.countAt);
  }
}
