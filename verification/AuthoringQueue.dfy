/** The durable queue of governance edits made while a run is in flight, and its drain
    (packages/daemon/src/authoring-queue.ts). */
module AuthoringQueue {
  import opened Outcomes
  import opened Governance
  import opened GovernanceGuards
  import Ids

  // ----- entries -----

  datatype Status = Queued | Committed | Failed(error: string)

  datatype Entry = Entry(queuedId: string, action: Action, status: Status, enqueuedAt: nat)

  ghost predicate DistinctIds(file: seq<Entry>) {
    forall i, j :: 0 <= i < j < |file| ==> file[i].queuedId != file[j].queuedId
  }

  function HeldIds(file: seq<Entry>): (held: set<string>)
    ensures forall id :: id in held <==> exists i :: 0 <= i < |file| && file[i].queuedId == id
  {
    set i | 0 <= i < |file| :: file[i].queuedId
  }

  /** Ticket ids reserved by creates that are not committed; a failed create still holds its id. */
  function HeldTickets(file: seq<Entry>): (held: set<string>)
    ensures forall id :: id in held <==>
              exists i :: 0 <= i < |file| && Reserves(file[i]) && file[i].action.reservedId == id
  {
    set i | 0 <= i < |file| && Reserves(file[i]) :: file[i].action.reservedId
  }

  predicate Reserves(e: Entry) {
    !e.status.Committed? && e.action.TicketCreate?
  }

  ghost predicate DistinctReservations(file: seq<Entry>) {
    forall i, j :: 0 <= i < j < |file| && Reserves(file[i]) && Reserves(file[j])
      ==> file[i].action.reservedId != file[j].action.reservedId
  }

  /** Every entry with the id of `next` replaced by it. */
  function ReplaceEntry(file: seq<Entry>, next: Entry): (r: seq<Entry>)
    ensures |r| == |file|
  {
    seq(|file|, i requires 0 <= i < |file| => if file[i].queuedId == next.queuedId then next else file[i])
  }

  // ----- the drain on values -----

  /** The queue file and the governance files, with what has happened to them: which entries changed a file,
      which made the edit they stand for and which were committed, oldest first; and how often a ticket was
      lost. */
  datatype Lane = Lane(
    file: seq<Entry>, disk: Disk,
    touched: seq<string>, effects: seq<string>, commits: seq<string>, lost: multiset<string>)

  const NO_LANE := Lane([], NO_DISK, [], [], [], multiset{})

  /** The disk as an edit leaves it. */
  function WithDisk(lane: Lane, next: Disk): Lane {
    lane.(disk := next, lost := lane.lost + multiset(Losses(lane.disk, next)))
  }

  /** The same, noting what the entry did. */
  function Noted(lane: Lane, e: Entry, next: Disk): Lane {
    WithDisk(lane, next).(
      touched := lane.touched + Logged(e.queuedId, next != lane.disk),
      effects := lane.effects + Logged(e.queuedId, Achieves(lane.disk, e.action, next)))
  }

  function Logged(id: string, logged: bool): seq<string> {
    if logged then [id] else []
  }

  type World = string -> Verdict

  /** Awaited actions the daemon lives through; None when it does not die. */
  type Life = Option<nat>

  function Spend(life: Life): Life
    requires life != Some(0)
  {
    if life.None? then None else Some(life.value - 1)
  }

  /** One entry's turn; no resolved entry when the daemon died during it. */
  datatype Turn = Turn(lane: Lane, life: Life, resolved: Option<Entry>)

  function Write(lane: Lane, e: Entry, life: Life): Turn {
    if life == Some(0) then Turn(lane, life, None)
    else Turn(lane.(file := ReplaceEntry(lane.file, e)), Spend(life), Some(e))
  }

  /** Apply, commit, then write the entry's status; each can be the action the daemon dies before. A report
      that breaks turns the entry into an error although its commit has landed. */
  function DrainOne(lane: Lane, e: Entry, v: Verdict, life: Life): Turn {
    if life == Some(0) then Turn(lane, life, None)
    else
      var a := Apply(lane.disk, e.action, v);
      var applied := Noted(lane, e, a.disk);
      var left := Spend(life);
      if a.error.Some? then Write(applied, e.(status := Failed(a.error.value)), left)
      else if left == Some(0) then Turn(applied, left, None)
      else if v.commits then
        ReportOne(applied.(commits := applied.commits + [e.queuedId]), e, v.report, Spend(left))
      else Write(applied, e.(status := Failed("commit failed")), Spend(left))
  }

  function ReportOne(lane: Lane, e: Entry, report: Report, life: Life): Turn {
    if report.BreaksBeforeStatus? then Write(lane, e.(status := Failed("report failed")), life)
    else
      var t := Write(lane, e.(status := Committed), life);
      if report.Whole? || t.life == Some(0) then t
      else Write(t.lane, e.(status := Failed("report failed")), t.life)
  }

  datatype Drained = Drained(lane: Lane, alive: bool, resolved: seq<Entry>)

  /** The drain of the entries `snapshot[i..]`, as they were when it began. */
  function DrainFrom(lane: Lane, snapshot: seq<Entry>, i: nat, world: World, life: Life): Drained
    decreases |snapshot| - i
  {
    if i >= |snapshot| then Drained(lane, true, [])
    else if !snapshot[i].status.Queued? then DrainFrom(lane, snapshot, i + 1, world, life)
    else
      var t := DrainOne(lane, snapshot[i], world(snapshot[i].queuedId), life);
      if t.resolved.None? then Drained(t.lane, false, [])
      else
        var rest := DrainFrom(t.lane, snapshot, i + 1, world, t.life);
        rest.(resolved := [t.resolved.value] + rest.resolved)
  }

  function Drain(lane: Lane, world: World, life: Life): Drained {
    DrainFrom(lane, lane.file, 0, world, life)
  }

  // ----- the queue in place -----

  class QueueStore {
    var file: seq<Entry>
    var disk: Disk
    ghost var touched: seq<string>
    ghost var effects: seq<string>
    ghost var commits: seq<string>
    ghost var lost: multiset<string>

    ghost function View(): Lane
      reads this
    {
      Lane(file, disk, touched, effects, commits, lost)
    }

    constructor (d: Disk)
      ensures View() == NO_LANE.(disk := d)
    {
      file, disk, touched, effects, commits, lost := [], d, [], [], [], multiset{};
    }

    /** Queues an action under the least free numbering of its name. A create gets the least padded id at
        or above `nextTicketId` that no uncommitted create holds. */
    method EnqueueAuthoring(action: Action, nextTicketId: nat, now: nat) returns (entry: Entry)
      modifies this
      ensures View() == old(View()).(file := old(file) + [entry])
      ensures MayEnqueue(old(file), entry) && entry.enqueuedAt == now
      ensures NamedFrom(BaseId(entry.action, old(file)), HeldIds(old(file)), entry.queuedId)
      ensures if action.TicketCreate?
              then exists n :: LeastFree(nextTicketId, n, HeldTickets(old(file))) && entry.action == TicketCreate(Ids.Pad4(n), action.home)
              else entry.action == action
    {
      hide HeldIds, HeldTickets;
      var queued := action;
      if action.TicketCreate? {
        var reserved;
        ghost var n;
        reserved, n := Ids.NextIdAfter(nextTicketId, HeldTickets(file));
        assert LeastFree(nextTicketId, n, HeldTickets(file));
        queued := TicketCreate(reserved, action.home);
      }
      var base := BaseId(queued, file);
      var queuedId;
      ghost var k;
      queuedId, k := Ids.UniqueQueuedId(base, HeldIds(file));
      assert base in HeldIds(file) ==> LeastNumber(base, k, HeldIds(file)) && queuedId == Ids.Numbered(base, k);
      entry := Entry(queuedId, queued, Queued, now);
      file := file + [entry];
    }

    /** Drains the queue entry by entry, rewriting the file after each; stops where the daemon dies. */
    method DrainAuthoringQueue(world: World, lives: Life) returns (drained: seq<Entry>, alive: bool)
      modifies this
      ensures Drained(View(), alive, drained) == Drain(old(View()), world, lives)
    {
      hide DrainOne;
      drained, alive := [], true;
      var snapshot := file;
      var life := lives;
      var i := 0;
      while i < |snapshot|
        invariant 0 <= i <= |snapshot|
        invariant var rest := DrainFrom(View(), snapshot, i, world, life);
                  Drain(old(View()), world, lives) == Drained(rest.lane, rest.alive, drained + rest.resolved)
      {
        var entry := snapshot[i];
        if !entry.status.Queued? {
          i := i + 1;
          continue;
        }
        var resolved;
        resolved, life := DrainEntry(entry, world(entry.queuedId), life);
        if resolved.None? {
          alive := false;
          return;
        }
        Regroup(drained, [resolved.value], DrainFrom(View(), snapshot, i + 1, world, life).resolved);
        drained := drained + [resolved.value];
        i := i + 1;
      }
    }

    method DrainEntry(e: Entry, v: Verdict, lives: Life) returns (resolved: Option<Entry>, life: Life)
      modifies this
      ensures Turn(View(), life, resolved) == DrainOne(old(View()), e, v, lives)
    {
      hide Apply, Achieves, Losses;
      life := lives;
      if life == Some(0) {
        return None, life;
      }
      var a := Apply(disk, e.action, v);
      touched := touched + Logged(e.queuedId, a.disk != disk);
      effects := effects + Logged(e.queuedId, Achieves(disk, e.action, a.disk));
      lost := lost + multiset(Losses(disk, a.disk));
      disk := a.disk;
      life := Spend(life);
      if a.error.Some? {
        resolved, life := WriteStatus(e, Failed(a.error.value), life);
        return;
      }
      if life == Some(0) {
        return None, life;
      }
      life := Spend(life);
      if !v.commits {
        resolved, life := WriteStatus(e, Failed("commit failed"), life);
        return;
      }
      commits := commits + [e.queuedId];
      if !v.report.BreaksBeforeStatus? {
        resolved, life := WriteStatus(e, Committed, life);
        if v.report.Whole? || life == Some(0) {
          return;
        }
      }
      resolved, life := WriteStatus(e, Failed("report failed"), life);
    }

    /** Rewrites the queue file with the entry's new status. */
    method WriteStatus(e: Entry, status: Status, lives: Life) returns (resolved: Option<Entry>, life: Life)
      modifies this`file
      ensures Turn(View(), life, resolved) == Write(old(View()), e.(status := status), lives)
    {
      if lives == Some(0) {
        return None, lives;
      }
      file := ReplaceEntry(file, e.(status := status));
      return Some(e.(status := status)), Spend(lives);
    }
  }

  lemma Regroup(a: seq<Entry>, b: seq<Entry>, c: seq<Entry>)
    ensures a + (b + c) == (a + b) + c
  {
  }

  /** How many reorderings a queue has seen. */
  function Reorders(file: seq<Entry>): nat {
    if file == [] then 0
    else Reorders(file[..|file| - 1]) + if file[|file| - 1].action.TicketReorder? then 1 else 0
  }

  /** The name an action's entry would like. */
  function BaseId(action: Action, file: seq<Entry>): string {
    match action
    case TicketCreate(id, _) => "ticket-create-" + id
    case PriorityCreate(id) => "priority-create-" + id
    case TicketClose(id) => "ticket-close-" + id
    case TicketRepoint(id, _, _) => "ticket-repoint-" + id
    case TicketReconcile => "ticket-reconcile"
    case TicketReorder(_) => "ticket-reorder-" + Ids.Pad4(Reorders(file) + 1)
  }

  /** An entry would like to be named by its kind and its ticket or priority, and a reordering by one more than
      there are in the file, in four digits. */
  lemma NamesAre(action: Action, file: seq<Entry>)
    ensures var name := BaseId(action, file);
            match action
            case TicketCreate(id, _) => name == "ticket-create-" + id
            case PriorityCreate(id) => name == "priority-create-" + id
            case TicketClose(id) => name == "ticket-close-" + id
            case TicketRepoint(id, _, _) => name == "ticket-repoint-" + id
            case TicketReconcile => name == "ticket-reconcile"
            case TicketReorder(_) => name == "ticket-reorder-" + Ids.Pad4(|ReorderPlaces(file)| + 1)
  {
    ReordersCounted(file);
  }

  function ReorderPlaces(file: seq<Entry>): set<nat> {
    set i: nat | i < |file| && file[i].action.TicketReorder?
  }

  lemma {:induction false} ReordersCounted(file: seq<Entry>)
    ensures Reorders(file) == |ReorderPlaces(file)|
  {
    if file != [] {
      var front, n := file[..|file| - 1], |file| - 1;
      ReordersCounted(front);
      ReorderPlacesSnoc(file);
      assert n !in ReorderPlaces(front);
    }
  }

  lemma ReorderPlacesSnoc(file: seq<Entry>)
    requires file != []
    ensures var n: nat := |file| - 1;
            ReorderPlaces(file) == if file[n].action.TicketReorder? then ReorderPlaces(file[..n]) + {n} else ReorderPlaces(file[..n])
  {
  }

  ghost predicate LeastNumber(base: string, n: nat, held: set<string>) {
    n >= 2 && Ids.Numbered(base, n) !in held && forall k :: 2 <= k < n ==> Ids.Numbered(base, k) in held
  }

  /** The name itself if it is free, else its least free numbering. */
  ghost predicate NamedFrom(base: string, held: set<string>, id: string) {
    if base !in held then id == base
    else exists n :: LeastNumber(base, n, held) && id == Ids.Numbered(base, n)
  }

  /** An entry that may join a queue: queued, with an id and a reservation nobody holds. */
  ghost predicate MayEnqueue(file: seq<Entry>, e: Entry) {
    && e.status.Queued?
    && e.queuedId !in HeldIds(file)
    && (e.action.TicketCreate? ==> e.action.reservedId !in HeldTickets(file))
  }

  /** The least number at or above `base` whose padded id is free. */
  ghost predicate LeastFree(base: nat, n: nat, held: set<string>) {
    base <= n && Ids.Pad4(n) !in held && forall k :: base <= k < n ==> Ids.Pad4(k) in held
  }
}
