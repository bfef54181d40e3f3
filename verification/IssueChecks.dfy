/** How a request on an issue reads, checks and fills in the row it will write, field by field. */
module IssueChecks {
  import opened Wrappers
  import opened Rank
  import opened RankedList
  import opened Tracker

  type Checked = Result<Issue, Error>

  function Invalid(field: string): Error {
    Validation({field})
  }

  /** The status named for a new issue, or the project's leftmost one. */
  method StatusOf(db: Db, project: int, status: Option<int>) returns (r: Result<int, Error>)
    ensures r == StatusForNew(db, project, status)
  {
    if status.Some? {
      if !StatusIn(db, project, status.value) { return Err(Invalid("statusId")); }
      return Ok(status.value);
    }
    r := DefaultStatus(db, project);
  }

  /** The sprint a new issue of the given type and parent starts in. */
  method SprintOf(db: Db, project: int, in': CreateInput, parent: Option<Issue>) returns (r: Result<Option<int>, Error>)
    requires project in db.projects && (in'.typ.Subtask? ==> parent.Some?)
    ensures r == SprintForNew(db, project, in', parent)
  {
    var sprint: Option<int> := None;
    if in'.typ.Epic? {
      if in'.sprint.Value? { return Err(Invalid("sprintId")); }
    } else if in'.typ.Subtask? {
      if !in'.sprint.Absent? && in'.sprint.Ptr() != parent.value.sprint { return Err(Invalid("sprintId")); }
      sprint := parent.value.sprint;
    } else if in'.sprint.Value? {
      var resolved := ResolveSprint(db, project, in'.sprint.value);
      if resolved.Err? { return Err(resolved.error); }
      sprint := in'.sprint.Ptr();
    }
    return Ok(sprint);
  }

  /** Everything CreateIssue checks and reads, in its order, up to the row it inserts. */
  method BuildIssue(db: Db, project: int, in': CreateInput, now: int) returns (r: Checked)
    ensures r == NewIssue(db, project, in', now)
  {
    var errors := InvalidPoints(in'.points);
    if errors != {} { return Err(Validation(errors)); }
    if project !in db.projects { return Err(NotFound); }
    var status := StatusOf(db, project, in'.status);
    if status.Err? { return Err(status.error); }
    var parent := ResolveParent(db, project, in'.typ, in'.parent);
    if parent.Err? { return Err(parent.error); }
    var sprint := SprintOf(db, project, in', parent.value);
    if sprint.Err? { return Err(sprint.error); }
    var maxRank := MaxIssueRank(RanksOf(db.issues, project));
    var rank := BetweenKey(maxRank, "");
    if rank.Err? { return Err(Internal); }
    var resolvedAt: Option<int> := None;
    if CategoryOf(db, status.value).Done? { resolvedAt := Some(now); }
    return Ok(Issue(project, in'.typ, status.value, in'.parent, sprint.value, in'.points, in'.details,
                    rank.value, resolvedAt));
  }

  /** The plain fields of a PATCH: every invalid one is reported at once. */
  method PatchFields(cur: Issue, in': UpdateInput) returns (r: Checked)
    ensures r == if FieldErrors(cur, in') != {} then Err(Validation(FieldErrors(cur, in')))
                 else Ok(cur.(typ := if in'.typ.Value? then in'.typ.value else cur.typ,
                              points := if in'.points.Absent? then cur.points else in'.points.Ptr(),
                              details := if in'.details.Some? then in'.details.value else cur.details))
  {
    var next, errors: set<string> := cur, {};
    if in'.typ.Null? {
      errors := errors + {"type"};
    } else if in'.typ.Value? {
      if in'.typ.value != cur.typ && !(cur.typ.Standard() && in'.typ.value.Standard()) {
        errors := errors + {"type"};
      } else {
        next := next.(typ := in'.typ.value);
      }
    }
    if in'.details.Some? { next := next.(details := in'.details.value); }
    if !in'.points.Absent? {
      next := next.(points := in'.points.Ptr());
      errors := errors + InvalidPoints(in'.points.Ptr());
    }
    if in'.status.Null? { errors := errors + {"statusId"}; }
    assert errors == FieldErrors(cur, in');
    if errors != {} { return Err(Validation(errors)); }
    return Ok(next);
  }

  /** The references of a PATCH: status, then parent, then the sprint, which follows from type and parent. */
  method PatchReferences(db: Db, cur: Issue, fields: Issue, in': UpdateInput) returns (r: Checked)
    requires cur.project in db.projects &&
             fields == cur.(typ := fields.typ, points := fields.points, details := fields.details)
    ensures r == match PatchedStatus(db, cur, in'.status)
                 case Err(e) => Err(e)
                 case Ok(status) =>
                   match PatchedParent(db, cur, fields.typ, in'.parent)
                   case Err(e) => Err(e)
                   case Ok(parent) =>
                     match SprintAfterUpdate(db, cur, fields.typ, parent, in'.sprint)
                     case Err(e) => Err(e)
                     case Ok(sprint) => Ok(fields.(status := status, parent := parent, sprint := sprint))
  {
    var next := fields;
    if in'.status.Value? && in'.status.value != cur.status {
      if !StatusIn(db, cur.project, in'.status.value) { return Err(Invalid("statusId")); }
      next := next.(status := in'.status.value);
    }
    if !in'.parent.Absent? && in'.parent.Ptr() != cur.parent {
      var parent := ResolveParent(db, cur.project, next.typ, in'.parent.Ptr());
      if parent.Err? { return Err(parent.error); }
      next := next.(parent := in'.parent.Ptr());
    }
    if next.typ.Epic? {
      if in'.sprint.Value? { return Err(Invalid("sprintId")); }
    } else if next.typ.Subtask? {
      var parentSprint := ParentSprint(db, next.parent);
      if parentSprint.Err? { return Err(parentSprint.error); }
      if !in'.sprint.Absent? && in'.sprint.Ptr() != parentSprint.value { return Err(Invalid("sprintId")); }
      next := next.(sprint := parentSprint.value);
    } else if !in'.sprint.Absent? && in'.sprint.Ptr() != cur.sprint {
      if in'.sprint.Value? {
        var sprint := ResolveSprint(db, cur.project, in'.sprint.value);
        if sprint.Err? { return Err(sprint.error); }
      }
      next := next.(sprint := in'.sprint.Ptr());
    }
    return Ok(next);
  }

  method PatchIssue(db: Db, cur: Issue, in': UpdateInput) returns (r: Checked)
    requires cur.project in db.projects
    ensures r == PatchedIssue(db, cur, in')
  {
    var fields := PatchFields(cur, in');
    if fields.Err? { return Err(fields.error); }
    r := PatchReferences(db, cur, fields.value, in');
  }

  /** The columns a move writes besides the rank. */
  method PlaceIssue(db: Db, cur: Issue, in': MoveInput) returns (r: Checked)
    requires cur.project in db.projects
    ensures r == MovedIssue(db, cur, in')
  {
    var next := cur;
    if in'.status.Value? && in'.status.value != cur.status {
      if !StatusIn(db, cur.project, in'.status.value) { return Err(Invalid("statusId")); }
      next := next.(status := in'.status.value);
    }
    if !in'.sprint.Absent? {
      if cur.typ.Subtask? {
        var parentSprint := ParentSprint(db, cur.parent);
        if parentSprint.Err? { return Err(parentSprint.error); }
        if in'.sprint.Ptr() != parentSprint.value { return Err(Invalid("sprintId")); }
      } else if in'.sprint.Ptr() != cur.sprint {
        if in'.sprint.Value? {
          var sprint := ResolveSprint(db, cur.project, in'.sprint.value);
          if sprint.Err? { return Err(sprint.error); }
        }
        next := next.(sprint := in'.sprint.Ptr());
      }
    }
    return Ok(next);
  }

  /** Loads a neighbour; one that is not an issue of the project counts as not given. */
  method LoadNeighbour(db: Db, id: int, field: string, neighbour: Option<int>)
    returns (r: Result<Option<int>, MoveError>)
    requires id in db.issues
    ensures r == if neighbour == Some(id) then Err(MovedItself(field))
                 else Ok(Neighbour(RanksOf(db.issues, db.issues[id].project), neighbour))
  {
    if neighbour.None? { return Ok(None); }
    var n := neighbour.value;
    if n == id { return Err(MovedItself(field)); }
    if n !in db.issues || db.issues[n].project != db.issues[id].project { return Ok(None); }
    return Ok(neighbour);
  }

  /** The rank of a moved issue: between its new neighbour and the one beyond it. */
  method NewRank(db: Db, id: int, prev: Option<int>, next: Option<int>) returns (r: Result<string, MoveError>)
    requires id in db.issues
    ensures r == MoveRank(RanksOf(db.issues, db.issues[id].project), id, prev, next)
  {
    var cur := db.issues[id];
    var ranks := RanksOf(db.issues, cur.project);
    if prev.None? && next.None? { return Ok(cur.rank); }
    var p := LoadNeighbour(db, id, "prevIssueId", prev);
    if p.Err? { return Err(p.error); }
    var n := LoadNeighbour(db, id, "nextIssueId", next);
    if n.Err? { return Err(n.error); }
    if p.value.None? && n.value.None? { return Ok(cur.rank); }
    var lo, hi: string;
    if p.value.Some? {
      var x := p.value.value;
      lo := db.issues[x].rank;
      hi := RankAfter(ranks, lo, id);
    } else {
      var x := n.value.value;
      hi := db.issues[x].rank;
      lo := RankBefore(ranks, hi, id);
    }
    var key := BetweenKey(lo, hi);
    if key.Err? { return Err(NoRoom(key.error)); }
    return Ok(key.value);
  }
}
