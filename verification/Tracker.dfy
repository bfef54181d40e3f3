/** The rows of the tracker and what each request does to them, as one step under the project lock. */
module Tracker {
  import opened Wrappers
  import opened RankedList
  import opened Columns

  // ---------------------------------------------------------------- rows

  datatype IssueType = Epic | Story | Task | Bug | Subtask {
    predicate Standard() { Story? || Task? || Bug? }
  }

  datatype Category = Todo | InProgress | Done

  datatype SprintState = Planned | Active | Completed

  datatype ProjectType = Scrum | Kanban

  datatype Status = Status(project: int, category: Category, position: int)

  datatype Sprint = Sprint(
    project: int, name: string, state: SprintState, startDate: Option<int>, endDate: Option<int>)

  /** details stands for the columns no rule depends on: summary, description, priority, due date. */
  datatype Issue = Issue(
    project: int, typ: IssueType, status: int, parent: Option<int>, sprint: Option<int>,
    points: Option<real>, details: string, rank: string, resolvedAt: Option<int>)

  /** A row of the activity log with field "sprint": the names of the old and the new sprint. */
  datatype SprintRow = SprintRow(issue: int, oldName: Option<string>, newName: Option<string>)

  type Issues = map<int, Issue>
  type Sprints = map<int, Sprint>
  type Statuses = map<int, Status>

  /** lastId is the identity counter that new rows draw their ids from. */
  datatype Db = Db(
    projects: map<int, ProjectType>, statuses: Statuses, sprints: Sprints, issues: Issues,
    sprintLog: multiset<SprintRow>, lastId: int)

  datatype Error =
    | NotFound
    | Validation(fields: set<string>)
    | Conflict
    | NotForKanban
    | EpicsDoNotMove
    | Internal

  const MAX_STORY_POINTS := 1000.0

  // ---------------------------------------------------------------- queries

  function CategoryOf(db: Db, status: int): Category {
    if status in db.statuses then db.statuses[status].category else Todo
  }

  function SprintName(sprints: Sprints, sprint: Option<int>): Option<string> {
    if sprint.Some? && sprint.value in sprints then Some(sprints[sprint.value].name) else None
  }

  /** The ranks of a project's issues. */
  function RanksOf(issues: Issues, project: int): Ranks {
    map id | id in issues && issues[id].project == project :: issues[id].rank
  }

  function PositionsOf(statuses: Statuses, project: int): Positions {
    map s | s in statuses && statuses[s].project == project :: statuses[s].position
  }

  function SprintStandardIssues(issues: Issues, sprint: int): set<int> {
    set id | id in issues && issues[id].sprint == Some(sprint) && issues[id].typ.Standard()
  }

  function Subtasks(issues: Issues, parent: int): set<int> {
    set id | id in issues && issues[id].typ.Subtask? && issues[id].parent == Some(parent)
  }

  function ActiveSprints(sprints: Sprints, project: int): set<int> {
    set s | s in sprints && sprints[s].project == project && sprints[s].state.Active?
  }

  function DefaultStatus(db: Db, project: int): Result<int, Error> {
    match FirstColumn(PositionsOf(db.statuses, project))
    case Some(s) => Ok(s)
    case None => Err(Internal)
  }

  // ---------------------------------------------------------------- rules for references

  predicate StatusIn(db: Db, project: int, status: int) {
    status in db.statuses && db.statuses[status].project == project
  }

  predicate SprintIn(db: Db, project: int, sprint: int) {
    sprint in db.sprints && db.sprints[sprint].project == project
  }

  /** Epics have no parent, standard issues an epic or none, subtasks a standard issue. */
  function ResolveParent(db: Db, project: int, typ: IssueType, parent: Option<int>): Result<Option<Issue>, Error> {
    if typ.Epic? then
      if parent.Some? then Err(Validation({"parentId"})) else Ok(None)
    else if parent.None? then
      if typ.Subtask? then Err(Validation({"parentId"})) else Ok(None)
    else if parent.value !in db.issues || db.issues[parent.value].project != project then
      Err(Validation({"parentId"}))
    else
      var p := db.issues[parent.value];
      if typ.Subtask? && !p.typ.Standard() then Err(Validation({"parentId"}))
      else if typ.Standard() && !p.typ.Epic? then Err(Validation({"parentId"}))
      else Ok(Some(p))
  }

  /** Whether an issue of the project may be put into the sprint. */
  function ResolveSprint(db: Db, project: int, sprint: int): Result<int, Error>
    requires project in db.projects
  {
    if db.projects[project].Kanban? then Err(Validation({"sprintId"}))
    else if !SprintIn(db, project, sprint) then Err(Validation({"sprintId"}))
    else if db.sprints[sprint].state.Completed? then Err(Validation({"sprintId"}))
    else Ok(sprint)
  }

  function ParentSprint(db: Db, parent: Option<int>): Result<Option<int>, Error> {
    if parent.None? then Ok(None)
    else if parent.value in db.issues then Ok(db.issues[parent.value].sprint)
    else Err(Internal)
  }

  function InvalidPoints(points: Option<real>): set<string> {
    if points.Some? && (points.value < 0.0 || points.value > MAX_STORY_POINTS) then {"storyPoints"} else {}
  }

  function DateErrors(startDate: Option<int>, endDate: Option<int>): set<string> {
    if startDate.Some? && endDate.Some? && endDate.value < startDate.value then {"endDate"} else {}
  }

  /** resolved_at after a status change: set on entering done, kept within it, cleared on leaving. */
  function ResolvedAtFor(current: Option<int>, oldCategory: Category, newCategory: Category, now: int): Option<int> {
    if !newCategory.Done? then None
    else if oldCategory.Done? && current.Some? then current
    else Some(now)
  }

  // ---------------------------------------------------------------- what a sprint change means

  /** The moved issues go to dest, and the subtasks of every moved issue go with it. */
  function Resprint(issues: Issues, moved: set<int>, dest: Option<int>): Issues {
    map id | id in issues ::
      if id in moved || (issues[id].typ.Subtask? && issues[id].parent.Some? && issues[id].parent.value in moved)
      then issues[id].(sprint := dest) else issues[id]
  }

  /** One log row for each issue, old and new alike, whose sprint differs between two states. */
  function SprintChanges(before: Db, issues: Issues, sprints: Sprints): set<SprintRow> {
    set id | id in before.issues && id in issues && before.issues[id].sprint != issues[id].sprint ::
      SprintRow(id, SprintName(before.sprints, before.issues[id].sprint), SprintName(sprints, issues[id].sprint))
  }

  function Logged(before: Db, issues: Issues, sprints: Sprints): Db {
    before.(issues := issues, sprints := sprints,
            sprintLog := before.sprintLog + multiset(SprintChanges(before, issues, sprints)))
  }

  // ---------------------------------------------------------------- issues

  datatype CreateInput = CreateInput(
    typ: IssueType, status: Option<int>, parent: Option<int>, sprint: Patch<int>,
    points: Option<real>, details: string)

  datatype UpdateInput = UpdateInput(
    typ: Patch<IssueType>, status: Patch<int>, parent: Patch<int>, sprint: Patch<int>,
    points: Patch<real>, details: Option<string>)

  datatype MoveInput = MoveInput(status: Patch<int>, sprint: Patch<int>, prev: Patch<int>, next: Patch<int>)

  /** The sprint a new issue starts in. */
  function SprintForNew(db: Db, project: int, in': CreateInput, parent: Option<Issue>): Result<Option<int>, Error>
    requires project in db.projects
    requires in'.typ.Subtask? ==> parent.Some?
  {
    if in'.typ.Epic? then
      if in'.sprint.Value? then Err(Validation({"sprintId"})) else Ok(None)
    else if in'.typ.Subtask? then
      if !in'.sprint.Absent? && in'.sprint.Ptr() != parent.value.sprint then Err(Validation({"sprintId"}))
      else Ok(parent.value.sprint)
    else if in'.sprint.Value? then
      match ResolveSprint(db, project, in'.sprint.value)
      case Ok(s) => Ok(Some(s))
      case Err(e) => Err(e)
    else Ok(None)
  }

  function StatusForNew(db: Db, project: int, status: Option<int>): Result<int, Error> {
    if status.None? then DefaultStatus(db, project)
    else if StatusIn(db, project, status.value) then Ok(status.value)
    else Err(Validation({"statusId"}))
  }

  function NewIssue(db: Db, project: int, in': CreateInput, now: int): Result<Issue, Error> {
    if InvalidPoints(in'.points) != {} then Err(Validation(InvalidPoints(in'.points)))
    else if project !in db.projects then Err(NotFound)
    else
      match StatusForNew(db, project, in'.status)
      case Err(e) => Err(e)
      case Ok(status) =>
        match ResolveParent(db, project, in'.typ, in'.parent)
        case Err(e) => Err(e)
        case Ok(parent) =>
          match SprintForNew(db, project, in', parent)
          case Err(e) => Err(e)
          case Ok(sprint) =>
            match AppendRank(RanksOf(db.issues, project))
            case Err(_) => Err(Internal)
            case Ok(rank) =>
              var resolvedAt := if CategoryOf(db, status).Done? then Some(now) else None;
              Ok(Issue(project, in'.typ, status, in'.parent, sprint, in'.points, in'.details, rank, resolvedAt))
  }

  function CreateIssue(db: Db, project: int, in': CreateInput, now: int): Result<Db, Error> {
    match NewIssue(db, project, in', now)
    case Err(e) => Err(e)
    case Ok(issue) => Ok(db.(issues := db.issues[db.lastId + 1 := issue], lastId := db.lastId + 1))
  }

  function FieldErrors(cur: Issue, in': UpdateInput): set<string> {
    (if in'.typ.Null? ||
        (in'.typ.Value? && in'.typ.value != cur.typ && !(cur.typ.Standard() && in'.typ.value.Standard()))
     then {"type"} else {}) +
    (if in'.points.Value? then InvalidPoints(in'.points.Ptr()) else {}) +
    (if in'.status.Null? then {"statusId"} else {})
  }

  /** The sprint of an issue after a PATCH that leaves it with the given type and parent. */
  function SprintAfterUpdate(
    db: Db, cur: Issue, typ: IssueType, parent: Option<int>, sprint: Patch<int>): Result<Option<int>, Error>
    requires cur.project in db.projects
  {
    if typ.Epic? then
      if sprint.Value? then Err(Validation({"sprintId"})) else Ok(cur.sprint)
    else if typ.Subtask? then
      match ParentSprint(db, parent)
      case Err(e) => Err(e)
      case Ok(parentSprint) =>
        if !sprint.Absent? && sprint.Ptr() != parentSprint then Err(Validation({"sprintId"})) else Ok(parentSprint)
    else PatchedSprint(db, cur, sprint)
  }

  /** A standard issue's sprint after a request: unchanged, none, or one that accepts issues. */
  function PatchedSprint(db: Db, cur: Issue, sprint: Patch<int>): Result<Option<int>, Error>
    requires cur.project in db.projects
  {
    if sprint.Absent? || sprint.Ptr() == cur.sprint then Ok(cur.sprint)
    else if sprint.Null? then Ok(None)
    else
      match ResolveSprint(db, cur.project, sprint.value)
      case Err(e) => Err(e)
      case Ok(s) => Ok(Some(s))
  }

  function PatchedStatus(db: Db, cur: Issue, status: Patch<int>): Result<int, Error> {
    if !status.Value? || status.value == cur.status then Ok(cur.status)
    else if StatusIn(db, cur.project, status.value) then Ok(status.value)
    else Err(Validation({"statusId"}))
  }

  function PatchedParent(db: Db, cur: Issue, typ: IssueType, parent: Patch<int>): Result<Option<int>, Error> {
    if parent.Absent? || parent.Ptr() == cur.parent then Ok(cur.parent)
    else
      match ResolveParent(db, cur.project, typ, parent.Ptr())
      case Err(e) => Err(e)
      case Ok(_) => Ok(parent.Ptr())
  }

  /** The row after a PATCH, before resolved_at is derived from the status change. */
  function PatchedIssue(db: Db, cur: Issue, in': UpdateInput): Result<Issue, Error>
    requires cur.project in db.projects
  {
    if FieldErrors(cur, in') != {} then Err(Validation(FieldErrors(cur, in')))
    else
      var typ := if in'.typ.Value? then in'.typ.value else cur.typ;
      match PatchedStatus(db, cur, in'.status)
      case Err(e) => Err(e)
      case Ok(status) =>
        match PatchedParent(db, cur, typ, in'.parent)
        case Err(e) => Err(e)
        case Ok(parent) =>
          match SprintAfterUpdate(db, cur, typ, parent, in'.sprint)
          case Err(e) => Err(e)
          case Ok(sprint) =>
            Ok(cur.(typ := typ, status := status, parent := parent, sprint := sprint,
                    points := if in'.points.Absent? then cur.points else in'.points.Ptr(),
                    details := if in'.details.Some? then in'.details.value else cur.details))
  }

  function Resolved(db: Db, cur: Issue, next: Issue, now: int): Issue {
    if next.status == cur.status then next
    else next.(resolvedAt :=
      ResolvedAtFor(cur.resolvedAt, CategoryOf(db, cur.status), CategoryOf(db, next.status), now))
  }

  /** The issues after one row changed; a standard issue takes its subtasks to its new sprint. */
  function WithChangedIssue(issues: Issues, id: int, next: Issue): Issues
    requires id in issues
  {
    var moves := next.typ.Standard() && next.sprint != issues[id].sprint;
    (if moves then Resprint(issues, {id}, next.sprint) else issues)[id := next]
  }

  function UpdateIssue(db: Db, id: int, in': UpdateInput, now: int): Result<Db, Error> {
    if id !in db.issues || db.issues[id].project !in db.projects then Err(NotFound)
    else
      match PatchedIssue(db, db.issues[id], in')
      case Err(e) => Err(e)
      case Ok(next) =>
        if next == db.issues[id] then Ok(db)
        else Ok(Logged(db, WithChangedIssue(db.issues, id, Resolved(db, db.issues[id], next, now)), db.sprints))
  }

  /** The row a drag and drop leaves, before its rank is set. */
  function MovedIssue(db: Db, cur: Issue, in': MoveInput): Result<Issue, Error>
    requires cur.project in db.projects
  {
    match PatchedStatus(db, cur, in'.status)
    case Err(e) => Err(e)
    case Ok(status) =>
      if cur.typ.Subtask? then
        if in'.sprint.Absent? then Ok(cur.(status := status))
        else
          match ParentSprint(db, cur.parent)
          case Err(e) => Err(e)
          case Ok(parentSprint) =>
            if in'.sprint.Ptr() != parentSprint then Err(Validation({"sprintId"})) else Ok(cur.(status := status))
      else
        match PatchedSprint(db, cur, in'.sprint)
        case Err(e) => Err(e)
        case Ok(sprint) => Ok(cur.(status := status, sprint := sprint))
  }

  function MoveIssue(db: Db, id: int, in': MoveInput, now: int): Result<Db, Error> {
    if in'.status.Null? then Err(Validation({"statusId"}))
    else if id !in db.issues || db.issues[id].project !in db.projects then Err(NotFound)
    else if db.issues[id].typ.Epic? then Err(EpicsDoNotMove)
    else
      var cur := db.issues[id];
      match MovedIssue(db, cur, in')
      case Err(e) => Err(e)
      case Ok(next) =>
        match MoveRank(RanksOf(db.issues, cur.project), id, in'.prev.Ptr(), in'.next.Ptr())
        case Err(MovedItself(field)) => Err(Validation({field}))
        case Err(NoRoom(_)) => Err(Internal)
        case Ok(rank) =>
          Ok(Logged(db, WithChangedIssue(db.issues, id, Resolved(db, cur, next, now).(rank := rank)), db.sprints))
  }

  /** The issue and its subtasks go; its other children stay, without a parent. */
  function DeleteIssue(db: Db, id: int): Result<Db, Error> {
    if id !in db.issues || db.issues[id].project !in db.projects then Err(NotFound)
    else
      var gone := {id} + Subtasks(db.issues, id);
      Ok(db.(issues := map x | x in db.issues && x !in gone ::
               if db.issues[x].parent == Some(id) then db.issues[x].(parent := None) else db.issues[x]))
  }

  // ---------------------------------------------------------------- sprints

  function NewSprint(
    db: Db, project: int, name: string, startDate: Option<int>, endDate: Option<int>): Result<Db, Error>
    requires project in db.projects
  {
    if db.projects[project].Kanban? then Err(NotForKanban)
    else Ok(db.(sprints := db.sprints[db.lastId + 1 := Sprint(project, name, Planned, startDate, endDate)],
                lastId := db.lastId + 1))
  }

  function CreateSprint(
    db: Db, project: int, name: string, startDate: Option<int>, endDate: Option<int>): Result<Db, Error>
  {
    if DateErrors(startDate, endDate) != {} then Err(Validation(DateErrors(startDate, endDate)))
    else if project !in db.projects then Err(NotFound)
    else NewSprint(db, project, name, startDate, endDate)
  }

  function Required(field: string, date: Option<int>): set<string> {
    if date.None? then {field} else {}
  }

  function UpdateSprint(
    db: Db, id: int, name: Option<string>, startDate: Patch<int>, endDate: Patch<int>): Result<Db, Error>
  {
    if id !in db.sprints || db.sprints[id].project !in db.projects then Err(NotFound)
    else
      var cur := db.sprints[id];
      var s := if startDate.Absent? then cur.startDate else startDate.Ptr();
      var e := if endDate.Absent? then cur.endDate else endDate.Ptr();
      var missing := if cur.state.Active? then Required("startDate", s) + Required("endDate", e) else {};
      if cur.state.Completed? then Err(Conflict)
      else if missing + DateErrors(s, e) != {} then Err(Validation(missing + DateErrors(s, e)))
      else
        var next := cur.(name := if name.Some? then name.value else cur.name, startDate := s, endDate := e);
        Ok(db.(sprints := db.sprints[id := next]))
  }

  function StartSprint(
    db: Db, id: int, name: Option<string>, startDate: Option<int>, endDate: Option<int>): Result<Db, Error>
  {
    if id !in db.sprints || db.sprints[id].project !in db.projects then Err(NotFound)
    else
      var cur := db.sprints[id];
      var s := if startDate.Some? then startDate else cur.startDate;
      var e := if endDate.Some? then endDate else cur.endDate;
      var errors := Required("startDate", s) + Required("endDate", e) + DateErrors(s, e);
      if db.projects[cur.project].Kanban? then Err(NotForKanban)
      else if !cur.state.Planned? then Err(Conflict)
      else if errors != {} then Err(Validation(errors))
      else if ActiveSprints(db.sprints, cur.project) != {} then Err(Conflict)
      else
        var newName := if name.Some? then name.value else cur.name;
        var next := cur.(state := Active, name := newName, startDate := s, endDate := e);
        Ok(db.(sprints := db.sprints[id := next]))
  }

  datatype CompleteTarget = ToBacklog | ToSprint(sprint: Option<int>) | ToNew(name: string)

  datatype Completion = Completion(db: Db, completedCount: int, movedCount: int, target: Option<int>)

  /** The state with the destination in place, and the destination. */
  function CompletionTarget(db: Db, project: int, target: CompleteTarget): Result<(Db, Option<int>), Error>
    requires project in db.projects
  {
    match target
    case ToBacklog => Ok((db, None))
    case ToSprint(None) => Err(Validation({"sprintId"}))
    case ToSprint(Some(d)) =>
      if SprintIn(db, project, d) && db.sprints[d].state.Planned? then Ok((db, Some(d)))
      else Err(Validation({"sprintId"}))
    case ToNew(name) =>
      match NewSprint(db, project, name, None, None)
      case Err(e) => Err(e)
      case Ok(db') => Ok((db', Some(db'.lastId)))
  }

  /** The standard issues of a sprint that are not done. */
  function OpenIssues(db: Db, sprint: int): set<int> {
    set id | id in SprintStandardIssues(db.issues, sprint) && !CategoryOf(db, db.issues[id].status).Done?
  }

  function CompleteSprint(db: Db, id: int, target: CompleteTarget): Result<Completion, Error> {
    if target == ToSprint(None) then Err(Validation({"sprintId"}))
    else if id !in db.sprints || db.sprints[id].project !in db.projects then Err(NotFound)
    else if !db.sprints[id].state.Active? then Err(Conflict)
    else
      match CompletionTarget(db, db.sprints[id].project, target)
      case Err(e) => Err(e)
      case Ok((with, dest)) =>
        var open := OpenIssues(db, id);
        var sprints := with.sprints[id := db.sprints[id].(state := Completed)];
        Ok(Completion(Logged(with, Resprint(db.issues, open, dest), sprints),
                      |SprintStandardIssues(db.issues, id)| - |open|, |open|, dest))
  }

  /** Only a planned sprint can go; every issue in it returns to the backlog. */
  function DeleteSprint(db: Db, id: int): Result<Db, Error> {
    if id !in db.sprints || db.sprints[id].project !in db.projects then Err(NotFound)
    else if !db.sprints[id].state.Planned? then Err(Conflict)
    else
      var issues := map x | x in db.issues ::
        if db.issues[x].sprint == Some(id) then db.issues[x].(sprint := None) else db.issues[x];
      Ok(Logged(db, issues, db.sprints - {id}))
  }

  // ---------------------------------------------------------------- statuses

  function Repositioned(statuses: Statuses, pos: Positions): Statuses {
    map s | s in statuses :: if s in pos then statuses[s].(position := pos[s]) else statuses[s]
  }

  /** resolved_at re-derived for the issues of a status that is, or is not, a done one. */
  function SyncResolved(issues: Issues, status: int, done: bool, now: int): Issues {
    map id | id in issues ::
      if issues[id].status != status then issues[id]
      else issues[id].(resolvedAt := if !done then None
                                     else if issues[id].resolvedAt.Some? then issues[id].resolvedAt
                                     else Some(now))
  }

  function CreateStatus(db: Db, project: int, category: Category): Result<Db, Error> {
    if project !in db.projects then Err(NotFound)
    else
      var status := Status(project, category, NextPosition(PositionsOf(db.statuses, project)));
      Ok(db.(statuses := db.statuses[db.lastId + 1 := status], lastId := db.lastId + 1))
  }

  function UpdateStatus(db: Db, project: int, id: int, category: Category, now: int): Result<Db, Error> {
    if project !in db.projects || !StatusIn(db, project, id) then Err(NotFound)
    else
      var cur := db.statuses[id];
      var issues := if cur.category.Done? != category.Done? then SyncResolved(db.issues, id, category.Done?, now)
        else db.issues;
      Ok(db.(statuses := db.statuses[id := cur.(category := category)], issues := issues))
  }

  function ReorderStatuses(db: Db, project: int, ids: seq<int>): Result<Db, Error> {
    if project !in db.projects then Err(NotFound)
    else
      var pos := PositionsOf(db.statuses, project);
      if !ListsEveryStatus(pos, ids) then Err(Validation({"statusIds"}))
      else
        EveryStatusIsListed(pos, ids);
        Ok(db.(statuses := Repositioned(db.statuses, Reordered(pos, ids))))
  }

  function StatusMigration(db: Db, project: int, id: int, moveTo: Option<int>): Result<int, Error> {
    if moveTo.None? then Err(Conflict)
    else if moveTo.value == id || !StatusIn(db, project, moveTo.value) then Err(Validation({"moveTo"}))
    else Ok(moveTo.value)
  }

  function DeleteStatus(db: Db, project: int, id: int, moveTo: Option<int>, now: int): Result<Db, Error> {
    if project !in db.projects || !StatusIn(db, project, id) then Err(NotFound)
    else if |PositionsOf(db.statuses, project)| <= 1 then Err(Conflict)
    else
      var pos := Compact(PositionsOf(db.statuses, project) - {id});
      var statuses := Repositioned(db.statuses - {id}, pos);
      if forall x | x in db.issues :: db.issues[x].status != id then Ok(db.(statuses := statuses))
      else
        match StatusMigration(db, project, id, moveTo)
        case Err(e) => Err(e)
        case Ok(to) =>
          var issues := map x | x in db.issues ::
            if db.issues[x].status != id then db.issues[x]
            else db.issues[x].(status := to,
                               resolvedAt := if !CategoryOf(db, to).Done? then None
                                             else if db.issues[x].resolvedAt.Some? then db.issues[x].resolvedAt
                                             else Some(now));
          Ok(db.(statuses := statuses, issues := issues))
  }

  // ---------------------------------------------------------------- projects

  /** A project starts with the columns To Do, In Progress, In Review and Done. */
  function CreateProject(db: Db, typ: ProjectType): Db {
    var p := db.lastId + 1;
    db.(projects := db.projects[p := typ],
        statuses := db.statuses[p + 1 := Status(p, Todo, 0)][p + 2 := Status(p, InProgress, 1)]
                    [p + 3 := Status(p, InProgress, 2)][p + 4 := Status(p, Done, 3)],
        lastId := p + 4)
  }

  function UpdateProject(db: Db, project: int, typ: ProjectType): Result<Db, Error> {
    if project !in db.projects then Err(NotFound) else Ok(db.(projects := db.projects[project := typ]))
  }

  /** Deleting the project deletes its rows by cascade. */
  function DeleteProject(db: Db, project: int): Result<Db, Error> {
    if project !in db.projects then Err(NotFound)
    else Ok(db.(projects := db.projects - {project},
                statuses := map s | s in db.statuses && db.statuses[s].project != project :: db.statuses[s],
                sprints := map s | s in db.sprints && db.sprints[s].project != project :: db.sprints[s],
                issues := map x | x in db.issues && db.issues[x].project != project :: db.issues[x]))
  }

  // ---------------------------------------------------------------- runs

  datatype Op =
    | OpCreateProject(typ: ProjectType)
    | OpUpdateProject(project: int, typ: ProjectType)
    | OpDeleteProject(project: int)
    | OpCreateIssue(project: int, create: CreateInput)
    | OpUpdateIssue(id: int, update: UpdateInput)
    | OpMoveIssue(id: int, move: MoveInput)
    | OpDeleteIssue(id: int)
    | OpCreateSprint(project: int, name: string, startDate: Option<int>, endDate: Option<int>)
    | OpUpdateSprint(id: int, newName: Option<string>, newStart: Patch<int>, newEnd: Patch<int>)
    | OpStartSprint(id: int, newName: Option<string>, startDate: Option<int>, endDate: Option<int>)
    | OpCompleteSprint(id: int, target: CompleteTarget)
    | OpDeleteSprint(id: int)
    | OpCreateStatus(project: int, category: Category)
    | OpUpdateStatus(project: int, id: int, category: Category)
    | OpReorderStatuses(project: int, ids: seq<int>)
    | OpDeleteStatus(project: int, id: int, moveTo: Option<int>)

  function Apply(db: Db, op: Op, now: int): Result<Db, Error> {
    match op
    case OpCreateProject(typ) => Ok(CreateProject(db, typ))
    case OpUpdateProject(p, typ) => UpdateProject(db, p, typ)
    case OpDeleteProject(p) => DeleteProject(db, p)
    case OpCreateIssue(p, in') => CreateIssue(db, p, in', now)
    case OpUpdateIssue(id, in') => UpdateIssue(db, id, in', now)
    case OpMoveIssue(id, in') => MoveIssue(db, id, in', now)
    case OpDeleteIssue(id) => DeleteIssue(db, id)
    case OpCreateSprint(p, name, s, e) => CreateSprint(db, p, name, s, e)
    case OpUpdateSprint(id, name, s, e) => UpdateSprint(db, id, name, s, e)
    case OpStartSprint(id, name, s, e) => StartSprint(db, id, name, s, e)
    case OpCompleteSprint(id, target) =>
      (match CompleteSprint(db, id, target) case Ok(c) => Ok(c.db) case Err(e) => Err(e))
    case OpDeleteSprint(id) => DeleteSprint(db, id)
    case OpCreateStatus(p, category) => CreateStatus(db, p, category)
    case OpUpdateStatus(p, id, category) => UpdateStatus(db, p, id, category, now)
    case OpReorderStatuses(p, ids) => ReorderStatuses(db, p, ids)
    case OpDeleteStatus(p, id, moveTo) => DeleteStatus(db, p, id, moveTo, now)
  }

  /** A failed request is rolled back. */
  function Next(db: Db, op: Op, now: int): Db {
    match Apply(db, op, now)
    case Ok(db') => db'
    case Err(_) => db
  }

  const EMPTY := Db(map[], map[], map[], map[], multiset{}, 0)

  datatype Request = Request(op: Op, now: int)

  function RunFrom(db: Db, requests: seq<Request>): Db {
    if requests == [] then db
    else
      var last := requests[|requests| - 1];
      Next(RunFrom(db, requests[..|requests| - 1]), last.op, last.now)
  }

  /** The state a run of requests reaches from an empty database. */
  function Run(requests: seq<Request>): Db {
    RunFrom(EMPTY, requests)
  }
}
