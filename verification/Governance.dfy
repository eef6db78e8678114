/** The governance files of a workspace and the edits made to them, write by write, with what a break
    leaves behind (packages/core/src/tickets/create.ts, packages/core/src/tickets/close.ts,
    packages/core/src/tickets/repoint.ts, packages/core/src/tickets/reconcile.ts,
    packages/daemon/src/priority-order.ts, packages/daemon/src/priority-authoring.ts). */
module Governance {
  import opened Outcomes
  import opened Sequences
  import opened Text

  // ----- the files -----

  /** A ticket file: the priority it is bound to, and how often it has been resolved. */
  datatype TicketFile = TicketFile(home: Option<string>, resolutions: nat)

  datatype Row = Row(id: string, home: Option<string>)

  /** INDEX.md: the rows of its open and the ids of its closed section, from the top. */
  datatype Index = Index(open: seq<Row>, closed: seq<string>)

  /** Both ticket directories, the ticket order and the draft it is renamed from; the priority files, what
      failed creations left aside, the priority order and its draft. */
  datatype Disk = Disk(
    open: map<string, TicketFile>, closed: map<string, TicketFile>, index: Index,
    order: seq<string>, draft: Option<seq<string>>,
    priorities: set<string>, asides: seq<string>,
    ranking: seq<string>, rankingDraft: Option<seq<string>>)

  const NO_DISK := Disk(map[], map[], Index([], []), [], None, {}, [], [], None)

  // ----- the edits and what the world answers -----

  datatype Action =
    | TicketCreate(reservedId: string, home: Option<string>)
    | TicketReorder(order: seq<string>)
    | TicketClose(ticketId: string)
    | TicketRepoint(ticketId: string, target: Option<string>, newOrder: Option<seq<string>>)
    | TicketReconcile
    | PriorityCreate(priorityId: string)

  /** Where an edit throws: nowhere, or when this many of its writes are made. */
  datatype Break = Nowhere | At(writes: nat)

  /** Files a clean-up may fail to put back or remove. */
  datatype File = OpenFile | ClosedFile | OrderFile | AsideFile | TargetFile

  /** Whether a landed commit is reported in full: its link, its event and the status write come first, the
      audit line and the event of the drain after the status. */
  datatype Report = Whole | BreaksBeforeStatus | BreaksAfterStatus

  /** What the world answers for one edit: the close gate, where it breaks and what its clean-up cannot
      undo, the open tickets as the directory lists them, the priorities a registration finds missing in
      their order, git's commit and its report. */
  datatype Verdict = Verdict(
    gateBlocks: bool, breaks: Break, stuck: set<File>, listing: seq<string>, registers: seq<string>,
    commits: bool, report: Report)

  const FINE := Verdict(false, Nowhere, {}, [], [], true, Whole)

  predicate Made(b: Break, n: nat) {
    b.Nowhere? || b.writes >= n
  }

  datatype Applied = Applied(disk: Disk, error: Option<string>)

  function Denied(d: Disk, error: string): Applied {
    Applied(d, Some(error))
  }

  /** The disk after the edit, with an error when it threw. */
  function Done(disk: Disk, threw: bool, error: string): Applied {
    Applied(disk, if threw then Some(error) else None)
  }

  // ----- reading -----

  predicate IsOpen(d: Disk, id: string) {
    id in d.open
  }

  predicate HasFile(d: Disk, id: string) {
    id in d.open || id in d.closed
  }

  predicate Names(index: Index, id: string) {
    id in index.closed || exists i :: 0 <= i < |index.open| && index.open[i].id == id
  }

  /** The id is taken: by a file, a row of the index or a place in the order. */
  predicate Known(d: Disk, id: string) {
    HasFile(d, id) || Names(d.index, id) || id in d.order
  }

  predicate PriorityTaken(d: Disk, id: string) {
    exists p :: p in d.priorities && Lower(p) == Lower(id)
  }

  function Without(order: seq<string>, id: string): seq<string> {
    Filter(order, k => k != id)
  }

  function OpenOnly(order: seq<string>, open: map<string, TicketFile>): (r: seq<string>)
    ensures forall k :: k in r <==> k in order && k in open
  {
    Filter(order, k => k in open)
  }

  // ----- rows of the index -----

  function DropFirst(rows: seq<Row>, id: string): seq<Row> {
    if rows == [] then []
    else if rows[0].id == id then rows[1..]
    else [rows[0]] + DropFirst(rows[1..], id)
  }

  /** The row moves to the closed section; a closed row that is there stays. */
  function RowClosed(index: Index, id: string): Index {
    Index(DropFirst(index.open, id), if id in index.closed then index.closed else [id] + index.closed)
  }

  function Rebound(rows: seq<Row>, id: string, home: Option<string>): Option<seq<Row>> {
    if rows == [] then None
    else if rows[0].id == id then Some([Row(id, home)] + rows[1..])
    else
      match Rebound(rows[1..], id, home)
      case None => None
      case Some(rest) => Some([rows[0]] + rest)
  }

  /** The first row of the id is bound anew; without one it gets a row on top. */
  function RowRebound(index: Index, id: string, home: Option<string>): Index {
    match Rebound(index.open, id, home)
    case None => index.(open := [Row(id, home)] + index.open)
    case Some(rows) => index.(open := rows)
  }

  // ----- the edits -----

  /** Writes the ticket file, its index row and its place in the order, then reads it back. */
  function CreateTicket(d: Disk, id: string, home: Option<string>, b: Break): Applied {
    if Known(d, id) then Denied(d, "already exists")
    else
      Done(d.(open := if Made(b, 1) then d.open[id := TicketFile(home, 0)] else d.open,
              index := if Made(b, 2) then d.index.(open := [Row(id, home)] + d.index.open) else d.index,
              order := if Made(b, 3) then d.order + [id] else d.order),
           b.At?, "create failed")
  }

  function Resolved(f: TicketFile): TicketFile {
    f.(resolutions := f.resolutions + 1)
  }

  /** Closes an open ticket: resolves its file, renames it into the closed directory, prunes the order and
      moves its row; a break rolls back file by file, as far as that goes. */
  function CloseOpen(d: Disk, id: string, b: Break, stuck: set<File>): Applied
    requires IsOpen(d, id)
  {
    var resolved := Resolved(d.open[id]);
    if Made(b, 4) then
      Applied(d.(open := d.open - {id}, closed := d.closed[id := resolved],
                 order := Without(d.order, id), index := RowClosed(d.index, id)), None)
    else
      Applied(d.(open := if !Made(b, 1) || OpenFile !in stuck then d.open
                         else if Made(b, 2) then d.open - {id} else d.open[id := resolved],
                 closed := if Made(b, 2) && ClosedFile in stuck then d.closed[id := resolved] else d.closed,
                 order := if Made(b, 3) && OrderFile in stuck then Without(d.order, id) else d.order),
              Some("close rolled back"))
  }

  /** Without an open ticket the order is pruned all the same; a verified close needs a commit. */
  function CloseTicket(d: Disk, id: string, hasCommit: bool, b: Break, stuck: set<File>): Applied {
    if !IsOpen(d, id) then
      Applied(if Made(b, 1) then d.(order := Without(d.order, id)) else d, Some("not open"))
    else if !hasCommit then Denied(d, "missing verified commit")
    else CloseOpen(d, id, b, stuck)
  }

  /** Appends a missing ticket to the order, then writes its file and its row; a requested order is written
      last, to a draft that is renamed. */
  function RepointTicket(d: Disk, id: string, target: Option<string>, newOrder: Option<seq<string>>, b: Break): Applied {
    if target.Some? && target.value !in d.priorities then Denied(d, "missing priority")
    else if !IsOpen(d, id) then Denied(d, "missing open ticket")
    else if d.open[id].home == target then Denied(d, "already at target")
    else
      var moved := d.(order := if Made(b, 1) && id !in d.order then d.order + [id] else d.order,
                      open := if Made(b, 2) then d.open[id := d.open[id].(home := target)] else d.open,
                      index := if Made(b, 3) then RowRebound(d.index, id, target) else d.index);
      if newOrder.None? then Done(moved, b.At?, "repoint failed")
      else
        Done(Reordered(moved, OpenOnly(newOrder.value, d.open), Made(b, 4), Made(b, 5)), !Made(b, 5), "repoint failed")
  }

  /** An order written to its draft and renamed into place, as far as that went. */
  function Reordered(d: Disk, order: seq<string>, drafted: bool, renamed: bool): Disk {
    if renamed then d.(order := order, draft := None)
    else if drafted then d.(draft := Some(order))
    else d
  }

  function ReorderTickets(d: Disk, order: seq<string>, b: Break): Applied {
    Done(Reordered(d, OpenOnly(order, d.open), Made(b, 1), Made(b, 2)), !Made(b, 2), "reorder failed")
  }

  /** The open tickets: those in the order as it has them, then the others as listed. */
  function Settled(d: Disk, listing: seq<string>): (r: seq<string>)
    ensures forall k :: k in r ==> k in d.open
  {
    Unique(OpenOnly(d.order, d.open) + OpenOnly(Filter(listing, k => k !in d.order), d.open))
  }

  function RowsOf(ids: seq<string>, open: map<string, TicketFile>): seq<Row>
    requires forall k :: k in ids ==> k in open
  {
    seq(|ids|, i requires 0 <= i < |ids| => Row(ids[i], open[ids[i]].home))
  }

  /** The index that a reconciliation writes. */
  function SettledIndex(d: Disk, listing: seq<string>): Index {
    d.index.(open := RowsOf(Settled(d, listing), d.open))
  }

  /** Writes the index, then the order. */
  function ReconcileTickets(d: Disk, listing: seq<string>, b: Break): Applied {
    Done(d.(index := if Made(b, 1) then SettledIndex(d, listing) else d.index,
            order := if Made(b, 2) then Settled(d, listing) else d.order),
         !Made(b, 2), "reconcile failed")
  }

  /** Writes the priority aside, renames it into place and registers it in the order, by a draft that is
      renamed; a break removes what is aside, then what is in place, unless removing throws. */
  function CreatePriority(d: Disk, id: string, b: Break, stuck: set<File>, registers: seq<string>): Applied {
    if PriorityTaken(d, id) then Denied(d, "already exists")
    else if Made(b, 4) then
      Applied(d.(priorities := d.priorities + {id},
                 ranking := d.ranking + registers,
                 rankingDraft := if registers == [] then d.rankingDraft else None), None)
    else
      Applied(d.(asides := if Made(b, 1) && !Made(b, 2) && AsideFile in stuck then d.asides + [id] else d.asides,
                 priorities := if Made(b, 2) && (AsideFile in stuck || TargetFile in stuck) then d.priorities + {id}
                               else d.priorities,
                 rankingDraft := if Made(b, 3) && registers != [] then Some(d.ranking + registers) else d.rankingDraft),
              Some("create undone"))
  }

  /** A queued edit. */
  function Apply(d: Disk, a: Action, v: Verdict): Applied {
    match a
    case TicketCreate(id, home) => CreateTicket(d, id, home, v.breaks)
    case TicketClose(id) =>
      if v.gateBlocks then Denied(d, "awaiting founder decision")
      else if !IsOpen(d, id) then Denied(d, "not open")
      else CloseTicket(d, id, true, v.breaks, v.stuck)
    case TicketRepoint(id, target, order) => RepointTicket(d, id, target, order, v.breaks)
    case TicketReconcile => ReconcileTickets(d, v.listing, v.breaks)
    case PriorityCreate(id) => CreatePriority(d, id, v.breaks, v.stuck, v.registers)
    case TicketReorder(order) => ReorderTickets(d, order, v.breaks)
  }

  /** An edit made at once; a close is let through by its gate, which the caller asks. */
  function Direct(d: Disk, a: Action, hasCommit: bool, v: Verdict): Disk {
    if a.TicketClose? then CloseTicket(d, a.ticketId, hasCommit, v.breaks, v.stuck).disk
    else Apply(d, a, v).disk
  }
}
