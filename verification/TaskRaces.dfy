/** Task calls with their checks and writes interleaved: an edit reads the task, checks the viewer against what it read, and
    writes the columns later, while anything else may happen in between. */
module TaskRaces {
  import opened Wrappers
  import opened Text
  import opened Json
  import opened Catalog
  import opened Tables
  import opened Statements
  import opened AccessMap
  import opened Requests
  import opened MemberAccess
  import opened TaskSchema
  import opened Tasks

  /** An edit in flight: it has read its task, or has also passed its checks. */
  datatype Edit = Read(id: nat, changes: TaskChanges, viewer: Option<Viewer>, seen: Task)
                | Passed(id: nat, changes: TaskChanges, viewer: Option<Viewer>, seen: Task)

  /** An edit whose columns were written. */
  datatype Applied = Applied(id: nat, viewer: Option<Viewer>)

  /** The requests and tables, the edits in flight and, as bookkeeping, the edits that were written. */
  datatype World = World(system: System, edits: map<nat, Edit>, applied: seq<Applied>)

  datatype Move =
    | Administer(event: Event)                                          // requests arrive and perform statements
    | Insert(projectId: nat, data: NewTask, viewer: Option<Viewer>, departmentId: Option<nat>, assignedTo: Option<nat>)
    | ReadTask(pid: nat, id: nat, changes: TaskChanges, viewer: Option<Viewer>)
    | Check(pid: nat, fetched: Fetch)
    | WriteColumns(pid: nat)
    | Drop(id: nat)

  /** The row `createTask` inserts, whatever defaults it found. */
  function NewRow(lib: Library, projectId: nat, data: NewTask, viewer: Option<Viewer>, departmentId: Option<nat>,
        assignedTo: Option<nat>): Task {
    Task(projectId, departmentId, data.title, data.description, "pending", StoredKind(data.kind),
         StoredSchema(lib, data.formSchema, ViewerId(viewer)), None, assignedTo)
  }

  /** The database's update of the columns of a task that is still there. */
  function ColumnsWritten(lib: Library, t: Tables, id: nat, changes: TaskChanges): Option<Tables> {
    if id !in t.tasks.rows || changes.title.Clear? || changes.status.Clear? then None
    else if !Refers(Tasks.Change(lib, t.tasks.rows[id], changes).assignedTo, t.users) then None
    else Some(t.(tasks := t.tasks.Update(id, Tasks.Change(lib, t.tasks.rows[id], changes))))
  }

  ghost function After(c: Catalog, lib: Library, w: World, move: Move): World {
    var t := w.system.tables;
    match move
    case Administer(event) => if event.Write? then w else w.(system := Next(c, w.system, event))
    case Insert(p, data, viewer, d, a) =>
      w.(system := w.system.(tables := AfterWrite(t, InsertTask(NewRow(lib, p, data, viewer, d, a)))))
    case ReadTask(pid, id, changes, viewer) =>
      if pid !in w.edits && id in t.tasks.rows
          then w.(edits := w.edits[pid := Read(id, changes, viewer, t.tasks.rows[id])]) else w
    case Check(pid, fetched) =>
      if pid in w.edits && w.edits[pid].Read? then
        var Read(id, changes, viewer, seen) := w.edits[pid];
        if MayUpdate(lib, t, seen, changes, viewer, AccessFor(c, t, seen.projectId, viewer, fetched)) then
          w.(edits := w.edits[pid := Passed(id, changes, viewer, seen)])
        else w.(edits := w.edits - {pid})
      else w
    case WriteColumns(pid) =>
      if pid in w.edits && w.edits[pid].Passed? then
        var edit := w.edits[pid];
        match ColumnsWritten(lib, t, edit.id, edit.changes)
        case Some(t') =>
          World(w.system.(tables := t'), w.edits - {pid}, w.applied + [Applied(edit.id, edit.viewer)])
        case None => w.(edits := w.edits - {pid})
      else w
    case Drop(id) => w.(system := w.system.(tables := AfterWrite(t, DeleteTask(id))))
  }

  ghost function Moves(c: Catalog, lib: Library, w: World, moves: seq<Move>): World {
    if moves == [] then w else After(c, lib, Moves(c, lib, w, moves[..|moves| - 1]), moves[|moves| - 1])
  }

  /** With nothing in between, reading, checking and writing is the edit that is handled in one go. */
  lemma UninterruptedIsOneCall(c: Catalog, lib: Library, w: World, pid: nat, id: nat, changes: TaskChanges,
        viewer: Option<Viewer>, f: Fetch)
    requires pid !in w.edits
    ensures var read := After(c, lib, w, ReadTask(pid, id, changes, viewer));
            var w' := After(c, lib, After(c, lib, read, Check(pid, f)), WriteColumns(pid));
            && w'.system.tables == TaskNext(c, lib, w.system.tables, EditTask(id, changes, viewer, f))
            && w'.system.running == w.system.running && w'.edits == w.edits
  {
    hide MayUpdate, AccessFor, Tasks.Change;
    if id in w.system.tables.tasks.rows {
      assert w.edits[pid := Read(id, changes, viewer, w.system.tables.tasks.rows[id])] - {pid} == w.edits;
      assert w.edits[pid := Passed(id, changes, viewer, w.system.tables.tasks.rows[id])] - {pid} == w.edits;
    }
  }

  /** A call that creates or removes a task, when it succeeds, makes the one write that stands for it here. */
  lemma OneWriteIsOneCall(c: Catalog, lib: Library, w: World, p: nat, data: NewTask, viewer: Option<Viewer>,
        access: map<string, Flags>, id: nat)
    ensures var t := w.system.tables;
            var (t', r) := CreateTask(lib, t, p, data, viewer, access);
            r.Ok? ==>
              && r.value in t'.tasks.rows
              && var row := t'.tasks.rows[r.value];
                 After(c, lib, w, Insert(p, data, viewer, row.departmentId, row.assignedTo)).system.tables == t'
    ensures var (t', r) := RemoveTask(lib, w.system.tables, id, viewer, access);
            r.Ok? ==> After(c, lib, w, Drop(id)).system.tables == t'
  {
    hide CanPerform, ResolveResource, StoredSchema, DeleteRows;
  }

  // ── What stays true of an edit in flight ────────────────────────────────

  /** What the edit read of the task's identity is still so, if the task is there. */
  ghost predicate Remembered(t: Tables, edit: Edit) {
    && edit.id < t.tasks.next
    && (edit.id in t.tasks.rows ==> SameIdentity(edit.seen, t.tasks.rows[edit.id]))
  }

  predicate SameIdentity(a: Task, b: Task) {
    a.formSchema == b.formSchema && a.kind == b.kind && a.projectId == b.projectId
  }

  /** An edit that passed its checks and finishes or delegates the task comes from a trusted viewer. */
  predicate Checked(lib: Library, edit: Edit) {
    edit.Passed? ==>
      && (edit.changes.status.Put? && IsDone(edit.changes.status.value) ==> Trusted(lib, edit.seen, edit.viewer))
      && (!edit.changes.assignedTo.Keep? ==> Trusted(lib, edit.seen, edit.viewer))
  }

  ghost predicate Good(lib: Library, w: World) {
    && w.system.tables.tasks.Valid()
    && forall pid | pid in w.edits :: Remembered(w.system.tables, w.edits[pid]) && Checked(lib, w.edits[pid])
  }

  /** From `t` to `t'` tasks keep their identity, and new ones have new numbers. */
  ghost predicate IdentitiesKept(t: Tables, t': Tables) {
    && t'.tasks.Valid() && t.tasks.next <= t'.tasks.next
    && forall i | i in t'.tasks.rows ::
         if i in t.tasks.rows then SameIdentity(t.tasks.rows[i], t'.tasks.rows[i]) else t.tasks.next <= i
  }

  /** What else may happen to a task when no edit is written: nothing, or references to deleted rows are cleared. */
  ghost predicate OnlyCleared(t: Tables, t': Tables) {
    && IdentitiesKept(t, t')
    && forall i | i in t.tasks.rows && i in t'.tasks.rows ::
         && t'.tasks.rows[i].status == t.tasks.rows[i].status
         && (t'.tasks.rows[i].assignedTo == t.tasks.rows[i].assignedTo || t'.tasks.rows[i].assignedTo.None?)
  }

  lemma DeleteOnlyClears(t: Tables, x: Dead)
    requires t.tasks.Valid()
    ensures OnlyCleared(t, DeleteRows(t, x))
  {
    TasksAfterDelete(t, x);
    hide DeleteRows, Cascade;
  }

  lemma EventOnlyClears(c: Catalog, s: System, event: Event)
    requires s.tables.tasks.Valid() && !event.Write?
    ensures OnlyCleared(s.tables, Next(c, s, event).tables)
  {
    if event.Turn? && event.pid in s.running {
      var process := s.running[event.pid];
      StatementShape(c, s.tables, process.req, process.local);
      if RootOf(s.tables, process.req).Some? { DeleteOnlyClears(s.tables, RootOf(s.tables, process.req).value); }
      hide Advance, DeleteRows, RootOf;
    }
  }

  lemma InsertOnlyClears(t: Tables, task: Task)
    requires t.tasks.Valid()
    ensures OnlyCleared(t, AfterWrite(t, InsertTask(task)))
  {
    hide TaskRefers;
  }

  lemma DropOnlyClears(t: Tables, id: nat)
    requires t.tasks.Valid()
    ensures OnlyCleared(t, AfterWrite(t, DeleteTask(id)))
  {
    if id in t.tasks.rows { DeleteOnlyClears(t, NOTHING.(tasks := {id})); }
    hide DeleteRows;
  }

  /** Every move but the write of an edit leaves status and identity alone, and assignees but for deleted users. */
  lemma OthersOnlyClear(c: Catalog, lib: Library, w: World, move: Move)
    requires w.system.tables.tasks.Valid() && !move.WriteColumns?
    ensures OnlyCleared(w.system.tables, After(c, lib, w, move).system.tables)
    ensures After(c, lib, w, move).applied == w.applied
  {
    hide Next, AfterWrite, OnlyCleared, MayUpdate, NewRow, AccessFor;
    Standing(w.system.tables);
    match move
    case Administer(event) => if !event.Write? { EventOnlyClears(c, w.system, event); }
    case Insert(p, data, viewer, d, a) => InsertOnlyClears(w.system.tables, NewRow(lib, p, data, viewer, d, a));
    case Drop(id) => DropOnlyClears(w.system.tables, id);
    case _ =>
  }

  lemma Standing(t: Tables)
    requires t.tasks.Valid()
    ensures OnlyCleared(t, t)
  {
  }

  /** The write of a checked edit, against the row as it is by then. */
  lemma WriteIsAccountable(lib: Library, t: Tables, edit: Edit)
    requires t.tasks.Valid() && edit.Passed? && Remembered(t, edit) && Checked(lib, edit)
    requires ColumnsWritten(lib, t, edit.id, edit.changes).Some?
    ensures var t' := ColumnsWritten(lib, t, edit.id, edit.changes).value;
            && IdentitiesKept(t, t') && edit.id in t.tasks.rows
            && (forall i | i in t'.tasks.rows && i != edit.id :: i in t.tasks.rows && t'.tasks.rows[i] == t.tasks.rows[i])
            && var before, after := t.tasks.rows[edit.id], t'.tasks.rows[edit.id];
               && (after.status != before.status && IsDone(after.status) ==> Trusted(lib, before, edit.viewer))
               && (after.assignedTo != before.assignedTo ==> Trusted(lib, before, edit.viewer))
  {
    hide Decode, IsDone;
    assert CreatorId(lib, edit.seen.formSchema) == CreatorId(lib, t.tasks.rows[edit.id].formSchema);
    hide CreatorId;
  }

  lemma RemembersKept(t: Tables, t': Tables, edit: Edit)
    requires Remembered(t, edit) && IdentitiesKept(t, t')
    ensures Remembered(t', edit)
  {
  }

  lemma CheckIsTrust(c: Catalog, lib: Library, w: World, move: Move)
    requires move.Check? && move.pid in w.edits && w.edits[move.pid].Read? && move.pid in After(c, lib, w, move).edits
    ensures var edit := After(c, lib, w, move).edits[move.pid];
            edit.id == w.edits[move.pid].id && edit.seen == w.edits[move.pid].seen && Checked(lib, edit)
  {
    hide AccessFor, CanPerform, ResolveResource, CreatorId, IsDone;
  }

  /** What a move leaves in flight: edits that were in flight, the edit just read, or the edit just checked. */
  lemma EditsAfter(c: Catalog, lib: Library, w: World, move: Move, pid: nat)
    requires Good(lib, w) && pid in After(c, lib, w, move).edits
    ensures var edit := After(c, lib, w, move).edits[pid];
            Remembered(w.system.tables, edit) && Checked(lib, edit)
  {
    if move.Check? && move.pid == pid && pid in w.edits && w.edits[pid].Read? { CheckIsTrust(c, lib, w, move); }
    hide MayUpdate, AccessFor, Next, AfterWrite, IsDone, Trusted, ColumnsWritten;
  }

  lemma MoveKeepsIdentities(c: Catalog, lib: Library, w: World, move: Move)
    requires Good(lib, w)
    ensures IdentitiesKept(w.system.tables, After(c, lib, w, move).system.tables)
  {
    if move.WriteColumns? {
      Standing(w.system.tables);
      if move.pid in w.edits && w.edits[move.pid].Passed? {
        var edit := w.edits[move.pid];
        if ColumnsWritten(lib, w.system.tables, edit.id,
            edit.changes).Some? { WriteIsAccountable(lib, w.system.tables, edit); }
      }
      hide ColumnsWritten, Checked, Remembered, IdentitiesKept;
    } else {
      OthersOnlyClear(c, lib, w, move);
      hide After;
    }
  }

  lemma MoveKeepsGood(c: Catalog, lib: Library, w: World, move: Move)
    requires Good(lib, w)
    ensures Good(lib, After(c, lib, w, move))
  {
    MoveKeepsIdentities(c, lib, w, move);
    hide After, Checked, Remembered;
    var w' := After(c, lib, w, move);
    forall pid | pid in w'.edits ensures Remembered(w'.system.tables, w'.edits[pid]) && Checked(lib, w'.edits[pid]) {
      EditsAfter(c, lib, w, move, pid);
      RemembersKept(w.system.tables, w'.system.tables, w'.edits[pid]);
    }
  }

  const START := World(System(EMPTY, map[]), map[], [])

  lemma {:induction false} MovesKeepGood(c: Catalog, lib: Library, moves: seq<Move>)
    ensures Good(lib, Moves(c, lib, START, moves))
  {
    if moves != [] {
      MovesKeepGood(c, lib, moves[..|moves| - 1]);
      hide After, Good;
      MoveKeepsGood(c, lib, Moves(c, lib, START, moves[..|moves| - 1]), moves[|moves| - 1]);
    }
  }

  // ── A task's whole life, interleaved ────────────────────────────────────

  /** Since the first `n` written edits, one by a privileged viewer or under the number `creator` was written to the task. */
  ghost predicate TrustedWrite(applied: seq<Applied>, n: nat, id: nat, creator: nat) {
    exists i :: n <= i < |applied| && applied[i].id == id
        && (Privileged(applied[i].viewer) || ViewerId(applied[i].viewer) == creator)
  }

  /** What is true of a task that was inserted as `first` when `n` edits had been written. */
  ghost predicate Alive(lib: Library, data: NewTask, creator: nat, first: Task, applied: seq<Applied>, n: nat, id: nat,
        task: Task) {
    && n <= |applied| && SameIdentity(first, task)
    && ResolveResource(lib, Some(task.kind), task.formSchema) == CheckedResource(lib, data)
    && CreatorId(lib, task.formSchema) == Some(creator as real)
    && (IsDone(task.status) ==> TrustedWrite(applied, n, id, creator))
    && (task.assignedTo == first.assignedTo || task.assignedTo.None? || TrustedWrite(applied, n, id, creator))
  }

  lemma TrustedWritesGrow(applied: seq<Applied>, more: Applied, n: nat, id: nat, creator: nat)
    requires n <= |applied|
    ensures TrustedWrite(applied, n, id, creator) ==> TrustedWrite(applied + [more], n, id, creator)
    ensures more.id == id && (Privileged(more.viewer) || ViewerId(more.viewer) == creator) ==>
              TrustedWrite(applied + [more], n, id, creator)
  {
    var longer := applied + [more];
    assert longer[|applied|] == more;
    if TrustedWrite(applied, n, id, creator) {
      var i :| n <= i < |applied| && applied[i].id == id
          && (Privileged(applied[i].viewer) || ViewerId(applied[i].viewer) == creator);
      assert longer[i] == applied[i];
    }
  }

  /** A trusted viewer is privileged or carries the stamped number. */
  lemma TrustedMeans(lib: Library, task: Task, viewer: Option<Viewer>, creator: nat)
    requires CreatorId(lib, task.formSchema) == Some(creator as real)
    ensures Trusted(lib, task, viewer) <==> Privileged(viewer) || ViewerId(viewer) == creator
  {
    hide CreatorId;
  }

  ghost predicate LivesIn(lib: Library, data: NewTask, creator: nat, first: Task, n: nat, id: nat, w: World) {
    && id < w.system.tables.tasks.next
    && (id in w.system.tables.tasks.rows ==>
        Alive(lib, data, creator, first, w.applied, n, id, w.system.tables.tasks.rows[id]))
    && n <= |w.applied|
  }

  lemma ClearedLives(lib: Library, data: NewTask, creator: nat, first: Task, n: nat, id: nat, w: World, t': Tables)
    requires LivesIn(lib, data, creator, first, n, id, w) && OnlyCleared(w.system.tables, t')
    ensures LivesIn(lib, data, creator, first, n, id, w.(system := w.system.(tables := t')))
  {
    hide ResolveResource, CreatorId, IsDone, TrustedWrite, CheckedResource;
  }

  lemma WrittenLives(lib: Library, data: NewTask, creator: nat, first: Task, n: nat, id: nat, w: World, edit: Edit)
    requires Good(lib, w) && LivesIn(lib, data, creator, first, n, id, w)
    requires edit.Passed? && Remembered(w.system.tables, edit) && Checked(lib, edit)
    requires ColumnsWritten(lib, w.system.tables, edit.id, edit.changes).Some?
    ensures LivesIn(lib, data, creator, first, n, id,
                    World(w.system.(tables := ColumnsWritten(lib, w.system.tables, edit.id, edit.changes).value), w.edits,
                          w.applied + [Applied(edit.id, edit.viewer)]))
  {
    var t := w.system.tables;
    WriteIsAccountable(lib, t, edit);
    TrustedWritesGrow(w.applied, Applied(edit.id, edit.viewer), n, id, creator);
    if id in t.tasks.rows { TrustedMeans(lib, t.tasks.rows[id], edit.viewer, creator); }
    hide ColumnsWritten, ResolveResource, CreatorId, IsDone, TrustedWrite, CheckedResource, Trusted, Checked,
        Remembered, Good;
  }

  lemma MoveKeepsLife(c: Catalog, lib: Library, data: NewTask, creator: nat, first: Task, n: nat, id: nat, w: World,
        move: Move)
    requires Good(lib, w) && LivesIn(lib, data, creator, first, n, id, w)
    ensures LivesIn(lib, data, creator, first, n, id, After(c, lib, w, move))
  {
    if move.WriteColumns? {
      if move.pid in w.edits && w.edits[move.pid].Passed? {
        var edit := w.edits[move.pid];
        if ColumnsWritten(lib, w.system.tables, edit.id, edit.changes).Some? {
          WrittenLives(lib, data, creator, first, n, id, w, edit);
        }
      }
      hide ColumnsWritten, Alive, Checked, Remembered;
    } else {
      OthersOnlyClear(c, lib, w, move);
      ClearedLives(lib, data, creator, first, n, id, w, After(c, lib, w, move).system.tables);
      hide After, Alive;
    }
  }

  /** The move inserts task `id` for an identified viewer. */
  ghost predicate Inserts(c: Catalog, lib: Library, w: World, move: Move, id: nat) {
    && move.Insert? && ViewerId(move.viewer) != 0 && id == w.system.tables.tasks.next
    && TaskRefers(w.system.tables, NewRow(lib, move.projectId, move.data, move.viewer, move.departmentId, move.assignedTo))
  }

  lemma InsertedLives(c: Catalog, lib: Library, w: World, move: Move, id: nat)
    requires Good(lib, w) && Inserts(c, lib, w, move, id)
    ensures var w' := After(c, lib, w, move);
            && id in w'.system.tables.tasks.rows
            && LivesIn(lib, move.data, ViewerId(move.viewer), w'.system.tables.tasks.rows[id], |w.applied|, id, w')
  {
    StampSurvives(lib, move.data.kind, move.data.formSchema, ViewerId(move.viewer));
    assert !IsDone("pending") by { assert |ToLower("pending")| == 7 && |"done"| == 4; }
    hide ResolveResource, StoredSchema, CreatorId, TrustedWrite, TaskRefers, IsDone;
  }

  /** However checks and writes interleave, with each other, with requests and with cascading deletes, from its insertion on
      a task is guarded by the very resource that was checked when it was created and carries its creator's number; it is
      done only if an edit by a privileged viewer or under that number was written since; and without such an edit its
      assignee is the first one or nobody. */
  lemma TaskLifeInterleaved(c: Catalog, lib: Library, earlier: seq<Move>, insert: Move, id: nat, later: seq<Move>)
    requires Inserts(c, lib, Moves(c, lib, START, earlier), insert, id)
    ensures var w := Moves(c, lib, START, earlier);
            var w1 := After(c, lib, w, insert);
            var w' := Moves(c, lib, w1, later);
            var task, data, creator := w'.system.tables.tasks.rows, insert.data, ViewerId(insert.viewer);
            && id in w1.system.tables.tasks.rows
            && (id in task ==> Alive(lib, data, creator, w1.system.tables.tasks.rows[id], w'.applied, |w.applied|, id,
                task[id]))
  {
    MovesKeepGood(c, lib, earlier);
    hide After, Good, Alive;
    LifeFrom(c, lib, Moves(c, lib, START, earlier), insert, id, later);
  }

  lemma {:induction false} LifeFrom(c: Catalog, lib: Library, w: World, insert: Move, id: nat, later: seq<Move>)
    requires Good(lib, w) && Inserts(c, lib, w, insert, id)
    ensures var w1 := After(c, lib, w, insert);
            var w' := Moves(c, lib, w1, later);
            && id in w1.system.tables.tasks.rows && Good(lib, w')
            && LivesIn(lib, insert.data, ViewerId(insert.viewer), w1.system.tables.tasks.rows[id], |w.applied|, id, w')
  {
    InsertedLives(c, lib, w, insert, id);
    MoveKeepsGood(c, lib, w, insert);
    hide After, LivesIn, Good;
    var w1 := After(c, lib, w, insert);
    if later != [] {
      var before := Moves(c, lib, w1, later[..|later| - 1]);
      LifeFrom(c, lib, w, insert, id, later[..|later| - 1]);
      MoveKeepsGood(c, lib, before, later[|later| - 1]);
      MoveKeepsLife(c, lib, insert.data, ViewerId(insert.viewer), w1.system.tables.tasks.rows[id], |w.applied|, id,
          before, later[|later| - 1]);
    }
  }
}
