/** The API lifecycle (internal/adminsvc/api_lifecycle.go, handlers_apis.go; internal/store/catalog.go):
    definitions, their immutable revisions and the catalogue the gateway loads. A handler reads
    the definition and writes it in two separate database steps, so handlers interleave. */
module Lifecycle {
  import opened Options

  type Id = nat

  /** Everything an operator edits: query, parameters, limits, path and method. */
  type Content = string

  datatype Status = Draft | Review | Approved | Published | Deprecated | Archived | Disabled

  datatype Definition = Definition(content: Content, status: Status, version: nat)

  /** A row of api_revisions. */
  datatype Revision = Revision(number: nat, content: Content)

  datatype Tables = Tables(defs: map<Id, Definition>, revs: map<Id, seq<Revision>>)

  predicate Terminal(s: Status) { s.Deprecated? || s.Archived? || s.Disabled? }

  predicate CanTransition(from: Status, to: Status) {
    match from
    case Draft => to.Review?
    case Review => to.Approved?
    case Approved => to.Published?
    case Published => Terminal(to)
    case _ => false
  }

  /** How far along the one-way lifecycle a status is; the terminal ones are equally far. */
  function Rank(s: Status): nat {
    match s
    case Draft => 0
    case Review => 1
    case Approved => 2
    case Published => 3
    case _ => 4
  }

  /** Statuses that a setAPIStatusHandler is mounted for. */
  predicate Routed(to: Status) { to.Review? || Terminal(to) }

  function Rows(t: Tables, id: Id): seq<Revision> { if id in t.revs then t.revs[id] else [] }

  /** COALESCE(MAX(revision), 0) */
  function MaxRevision(rows: seq<Revision>): nat {
    if rows == [] then 0
    else
      var rest := MaxRevision(rows[..|rows| - 1]);
      if rows[|rows| - 1].number > rest then rows[|rows| - 1].number else rest
  }

  /** The first row by descending revision. */
  function Latest(rows: seq<Revision>): Revision
    requires rows != []
  {
    var n := |rows| - 1;
    if n == 0 || rows[n].number > Latest(rows[..n]).number then rows[n] else Latest(rows[..n])
  }

  // ---- The statements of the store ----

  function Created(t: Tables, id: Id, content: Content): Tables {
    if id in t.defs then t else t.(defs := t.defs[id := Definition(content, Draft, 1)])
  }

  function Edited(d: Definition, content: Content): Definition {
    if d.status.Published? then Definition(content, Draft, d.version + 1) else d.(content := content)
  }

  function Updated(t: Tables, id: Id, content: Content): Tables {
    if id in t.defs then t.(defs := t.defs[id := Edited(t.defs[id], content)]) else t
  }

  /** Revisions go with their definition (ON DELETE CASCADE). */
  function Deleted(t: Tables, id: Id): Tables {
    if id in t.defs then Tables(t.defs - {id}, t.revs - {id}) else t
  }

  function WithStatus(t: Tables, id: Id, to: Status): Tables {
    if id in t.defs then t.(defs := t.defs[id := t.defs[id].(status := to)]) else t
  }

  /** Insert the next revision and move APPROVED to PUBLISHED, or do neither. */
  function Released(t: Tables, id: Id, content: Content): Tables {
    if id in t.defs && t.defs[id].status.Approved? then
      Tables(t.defs[id := t.defs[id].(status := Published)],
             t.revs[id := Rows(t, id) + [Revision(MaxRevision(Rows(t, id)) + 1, content)]])
    else t
  }

  /** One row per live definition: DISTINCT ON the definition, newest revision first. */
  function Snapshots(t: Tables): map<Id, Content> {
    map id | id in t.defs && t.defs[id].status.Published? && Rows(t, id) != [] :: Latest(Rows(t, id)).content
  }

  function LiveDefinitions(t: Tables): map<Id, Content> {
    map id | id in t.defs && t.defs[id].status.Published? :: t.defs[id].content
  }

  /** ListPublishedAPIs: the snapshots or, when there are none at all, the definitions themselves. */
  function Catalogue(t: Tables): map<Id, Content> {
    if Snapshots(t) == map[] then LiveDefinitions(t) else Snapshots(t)
  }

  class Store {
    var defs: map<Id, Definition>
    var revs: map<Id, seq<Revision>>

    function Contents(): Tables reads this { Tables(defs, revs) }

    method CreateAPI(id: Id, content: Content) returns (ok: bool)
      modifies this
      ensures Contents() == Created(old(Contents()), id, content) && ok == (id !in old(defs))
    {
      if id in defs { return false; }
      defs := defs[id := Definition(content, Draft, 1)];
      return true;
    }

    method UpdateAPI(id: Id, content: Content) returns (found: bool)
      modifies this
      ensures Contents() == Updated(old(Contents()), id, content) && found == (id in old(defs))
    {
      if id !in defs { return false; }
      var d := defs[id];
      defs := defs[id := Definition(content, if d.status == Published then Draft else d.status,
                                    if d.status == Published then d.version + 1 else d.version)];
      return true;
    }

    method SetAPIStatus(id: Id, to: Status) returns (found: bool)
      modifies this
      ensures Contents() == WithStatus(old(Contents()), id, to) && found == (id in old(defs))
    {
      if id !in defs { return false; }
      defs := defs[id := defs[id].(status := to)];
      return true;
    }

    /** One transaction: the insert is rolled back when the guarded update touches no row. */
    method PublishAPI(id: Id, content: Content) returns (revision: Option<nat>)
      modifies this
      ensures Contents() == Released(old(Contents()), id, content)
      ensures revision == if id in old(defs) && old(defs)[id].status.Approved?
                          then Some(MaxRevision(Rows(old(Contents()), id)) + 1) else None
    {
      var before := revs;
      var rows := if id in revs then revs[id] else [];
      var next := MaxRevision(rows) + 1;
      revs := revs[id := rows + [Revision(next, content)]];
      if id !in defs || defs[id].status != Approved {
        revs := before;
        return None;
      }
      defs := defs[id := defs[id].(status := Published)];
      return Some(next);
    }

    method DeleteAPI(id: Id) returns (found: bool)
      modifies this
      ensures Contents() == Deleted(old(Contents()), id) && found == (id in old(defs))
    {
      if id !in defs { return false; }
      defs, revs := defs - {id}, revs - {id};
      return true;
    }

    method ListPublishedAPIs() returns (apis: map<Id, Content>)
      ensures apis == Catalogue(Contents())
    {
      apis := Snapshots(Contents());
      if |apis| == 0 { apis := LiveDefinitions(Contents()); }
    }
  }

  // ---- Handlers in flight ----

  /** A handler that has read and checked a definition and has yet to write. */
  datatype Op = Move(id: Id, to: Status, seen: Definition) | Publish(id: Id, seen: Definition)

  datatype System = System(t: Tables, pending: map<nat, Op>)

  datatype Action =
    | Create(id: Id, content: Content)
    | Update(id: Id, content: Content)
    | Delete(id: Id)
    | ReadMove(h: nat, id: Id, to: Status)
    | ReadPublish(h: nat, id: Id)
    | Commit(h: nat)
    | Abandon(h: nat)

  /** What a handler requires of the definition it has read. */
  predicate Admitted(ready: Content -> bool, op: Op) {
    match op
    case Move(_, to, seen) => (Routed(to) || to.Approved?) && CanTransition(seen.status, to)
    case Publish(_, seen) => CanTransition(seen.status, Published) && ready(seen.content)
  }

  function Write(t: Tables, op: Op): Tables {
    match op
    case Move(id, to, _) => WithStatus(t, id, to)
    case Publish(id, seen) => Released(t, id, seen.content)
  }

  function Start(ready: Content -> bool, s: System, h: nat, op: Op): System {
    if h !in s.pending && Admitted(ready, op) then s.(pending := s.pending[h := op]) else s
  }

  /** One database step; a step that does not apply changes nothing. */
  function Step(ready: Content -> bool, s: System, a: Action): System {
    match a
    case Create(id, content) => s.(t := Created(s.t, id, content))
    case Update(id, content) => s.(t := Updated(s.t, id, content))
    case Delete(id) => s.(t := Deleted(s.t, id))
    case ReadMove(h, id, to) => if id in s.t.defs then Start(ready, s, h, Move(id, to, s.t.defs[id])) else s
    case ReadPublish(h, id) => if id in s.t.defs then Start(ready, s, h, Publish(id, s.t.defs[id])) else s
    case Commit(h) => if h in s.pending then System(Write(s.t, s.pending[h]), s.pending - {h}) else s
    case Abandon(h) => s.(pending := s.pending - {h})
  }

  const START := System(Tables(map[], map[]), map[])

  function Run(ready: Content -> bool, acts: seq<Action>): System {
    if acts == [] then START else Step(ready, Run(ready, acts[..|acts| - 1]), acts[|acts| - 1])
  }

  lemma RunSnoc(ready: Content -> bool, acts: seq<Action>, a: Action)
    ensures Run(ready, acts + [a]) == Step(ready, Run(ready, acts), a)
  {
    assert (acts + [a])[..|acts|] == acts;
  }

  /** A request for a status that nothing else disturbs: the definition gets it if and only if it is
      one step further along, and PUBLISHED is not among these; otherwise nothing is written. */
  lemma MoveServedIff(ready: Content -> bool, s: System, h: nat, id: Id, to: Status)
    requires h !in s.pending && id in s.t.defs
    ensures var from, after := s.t.defs[id].status, Step(ready, Step(ready, s, ReadMove(h, id, to)), Commit(h));
      if Rank(to) == Rank(from) + 1 && !to.Published?
      then after.t == s.t.(defs := s.t.defs[id := s.t.defs[id].(status := to)])
      else after.t == s.t
  {
  }

  /** A publication that nothing else disturbs succeeds if and only if the definition is APPROVED and
      its content passes validation; it adds one revision, holding that content. */
  lemma PublishServedIff(ready: Content -> bool, s: System, h: nat, id: Id)
    requires h !in s.pending && id in s.t.defs
    ensures var d, after := s.t.defs[id], Step(ready, Step(ready, s, ReadPublish(h, id)), Commit(h));
      if d.status.Approved? && ready(d.content)
      then after.t.defs == s.t.defs[id := d.(status := Published)]
        && exists n :: after.t.revs == s.t.revs[id := Rows(s.t, id) + [Revision(n, d.content)]]
      else after.t == s.t
  {
    var after := Step(ready, Step(ready, s, ReadPublish(h, id)), Commit(h));
    if s.t.defs[id].status.Approved? && ready(s.t.defs[id].content) {
      var n := MaxRevision(Rows(s.t, id)) + 1;
      assert after.t.revs == s.t.revs[id := Rows(s.t, id) + [Revision(n, s.t.defs[id].content)]];
    }
  }

  /** A chain of requests, each one step further, leads from one status to another if and only if the
      other is further along: every terminal status can be reached, and none can be left. */
  ghost predicate Leads(path: seq<Status>) { forall i | 0 < i < |path| :: CanTransition(path[i - 1], path[i]) }

  lemma {:induction false} RanksGrow(path: seq<Status>)
    requires path != [] && Leads(path)
    ensures Rank(path[|path| - 1]) == Rank(path[0]) + |path| - 1
  {
    var n := |path| - 1;
    if n > 0 {
      RanksGrow(path[..n]);
      assert CanTransition(path[n - 1], path[n]);
    }
  }

  function Line(from: Status, to: Status): seq<Status>
    requires Rank(from) < Rank(to)
    decreases Rank(to) - Rank(from)
  {
    if Rank(to) == Rank(from) + 1 then [from, to]
    else [from] + Line(match from case Draft => Review case Review => Approved case _ => Published, to)
  }

  lemma {:induction false} LineLeads(from: Status, to: Status)
    requires Rank(from) < Rank(to)
    ensures var path := Line(from, to); Leads(path) && path[0] == from && path[|path| - 1] == to
    decreases Rank(to) - Rank(from)
  {
    if Rank(to) > Rank(from) + 1 {
      var next := match from case Draft => Review case Review => Approved case _ => Published;
      LineLeads(next, to);
      assert CanTransition(from, next);
      hide CanTransition;
      LeadsCons(from, Line(next, to));
    }
  }

  lemma LeadsCons(s: Status, path: seq<Status>)
    requires path != [] && Leads(path) && CanTransition(s, path[0])
    ensures Leads([s] + path)
  {
    hide CanTransition;
    var all := [s] + path;
    forall i | 0 < i < |all| ensures CanTransition(all[i - 1], all[i]) {
      if i > 1 { assert all[i - 1] == path[i - 2] && all[i] == path[i - 1]; }
    }
  }

  lemma ReachableIff(from: Status, to: Status)
    ensures (exists path :: |path| > 1 && Leads(path) && path[0] == from && path[|path| - 1] == to)
        <==> Rank(from) < Rank(to)
  {
    if Rank(from) < Rank(to) {
      LineLeads(from, to);
      assert |Line(from, to)| > 1;
    }
    if path :| |path| > 1 && Leads(path) && path[0] == from && path[|path| - 1] == to { RanksGrow(path); }
  }

  predicate IsLive(t: Tables, id: Id) { id in t.defs && t.defs[id].status.Published? }

  /** The fallback, for any tables: a live definition without a revision is in the catalogue, as it
      stands, if and only if no live definition has one. */
  lemma UnversionedShownIff(t: Tables, id: Id)
    requires IsLive(t, id) && Rows(t, id) == []
    ensures id in Catalogue(t) <==> forall other | IsLive(t, other) :: Rows(t, other) == []
    ensures id in Catalogue(t) ==> Catalogue(t)[id] == t.defs[id].content
  {
    if other :| IsLive(t, other) && Rows(t, other) != [] {
      assert other in Snapshots(t);
    } else {
      assert Snapshots(t) == map[];
    }
  }

  // ---- What every interleaving keeps ----

  predicate Numbered(rows: seq<Revision>) { forall i | 0 <= i < |rows| :: rows[i].number == i + 1 }

  predicate AllReady(ready: Content -> bool, rows: seq<Revision>) {
    forall i | 0 <= i < |rows| :: ready(rows[i].content)
  }

  /** One definition and its revisions. */
  predicate RowsOk(ready: Content -> bool, t: Tables, id: Id) {
    && Numbered(Rows(t, id))
    && AllReady(ready, Rows(t, id))
    && (id !in t.defs ==> Rows(t, id) == [])
    && (id in t.defs && t.defs[id].status.Published? ==> Rows(t, id) != [])
  }

  ghost predicate Inv(ready: Content -> bool, s: System) {
    && (forall id :: RowsOk(ready, s.t, id))
    && (forall h | h in s.pending :: Admitted(ready, s.pending[h]))
  }

  lemma {:induction false} NumberedLatest(rows: seq<Revision>)
    requires Numbered(rows)
    ensures MaxRevision(rows) == |rows|
    ensures rows != [] ==> Latest(rows) == rows[|rows| - 1]
  {
    if rows != [] { NumberedLatest(rows[..|rows| - 1]); }
  }

  lemma ReleasedRows(ready: Content -> bool, t: Tables, id: Id, content: Content, other: Id)
    requires RowsOk(ready, t, id) && RowsOk(ready, t, other) && ready(content)
    ensures RowsOk(ready, Released(t, id, content), other)
  {
    NumberedLatest(Rows(t, id));
  }

  lemma WriteKeeps(ready: Content -> bool, t: Tables, op: Op, id: Id)
    requires forall i :: RowsOk(ready, t, i)
    requires Admitted(ready, op)
    ensures RowsOk(ready, Write(t, op), id)
  {
    match op
    case Move(i, to, _) => assert RowsOk(ready, t, i) && RowsOk(ready, t, id);
    case Publish(i, seen) => ReleasedRows(ready, t, i, seen.content, id);
  }

  lemma TablesKeep(ready: Content -> bool, s: System, a: Action, id: Id)
    requires Inv(ready, s)
    ensures RowsOk(ready, Step(ready, s, a).t, id)
  {
    assert RowsOk(ready, s.t, id);
    if a.Commit? && a.h in s.pending { WriteKeeps(ready, s.t, s.pending[a.h], id); }
  }

  lemma StepKeeps(ready: Content -> bool, s: System, a: Action)
    requires Inv(ready, s)
    ensures Inv(ready, Step(ready, s, a))
  {
    forall id ensures RowsOk(ready, Step(ready, s, a).t, id) { TablesKeep(ready, s, a, id); }
  }

  lemma {:induction false} AlwaysInv(ready: Content -> bool, acts: seq<Action>)
    ensures Inv(ready, Run(ready, acts))
  {
    if acts != [] {
      AlwaysInv(ready, acts[..|acts| - 1]);
      StepKeeps(ready, Run(ready, acts[..|acts| - 1]), acts[|acts| - 1]);
    }
  }

  /** Whatever the interleaving, the gateway loads exactly the PUBLISHED definitions, each as its
      newest revision, and every one of those passed the publish validation. The fallback to
      unversioned definitions never shows one. */
  lemma CatalogueExact(ready: Content -> bool, acts: seq<Action>)
    ensures var t := Run(ready, acts).t;
      && (forall id :: id in Catalogue(t) <==> id in t.defs && t.defs[id].status.Published?)
      && (forall id | id in Catalogue(t) :: Rows(t, id) != [] && ready(Catalogue(t)[id])
            && Catalogue(t)[id] == Rows(t, id)[|Rows(t, id)| - 1].content)
  {
    AlwaysInv(ready, acts);
    CatalogueOf(ready, Run(ready, acts));
  }

  lemma CatalogueOf(ready: Content -> bool, s: System)
    requires Inv(ready, s)
    ensures Catalogue(s.t) == Snapshots(s.t)
    ensures forall id :: id in Catalogue(s.t) <==> id in s.t.defs && s.t.defs[id].status.Published?
    ensures forall id | id in Catalogue(s.t) :: Rows(s.t, id) != [] && ready(Catalogue(s.t)[id])
              && Catalogue(s.t)[id] == Rows(s.t, id)[|Rows(s.t, id)| - 1].content
  {
    forall id | id in s.t.defs && s.t.defs[id].status.Published?
      ensures Rows(s.t, id) != [] && Latest(Rows(s.t, id)) == Rows(s.t, id)[|Rows(s.t, id)| - 1]
      ensures ready(Latest(Rows(s.t, id)).content)
    {
      assert RowsOk(ready, s.t, id);
      NumberedLatest(Rows(s.t, id));
    }
    assert Snapshots(s.t).Keys == LiveDefinitions(s.t).Keys;
    if Snapshots(s.t) == map[] { assert LiveDefinitions(s.t) == map[]; }
  }

  /** An edit leaves the catalogue alone exactly when the definition is not live: editing a
      PUBLISHED definition takes it out of the gateway at once. */
  lemma EditKeepsCatalogueIff(ready: Content -> bool, acts: seq<Action>, id: Id, content: Content)
    ensures var t := Run(ready, acts).t;
      Catalogue(Updated(t, id, content)) == Catalogue(t) <==> !(id in t.defs && t.defs[id].status.Published?)
  {
    var s := Run(ready, acts);
    AlwaysInv(ready, acts);
    StepKeeps(ready, s, Update(id, content));
    CatalogueOf(ready, s);
    CatalogueOf(ready, Step(ready, s, Update(id, content)));
  }

  predicate Live(s: System, id: Id) { id in s.t.defs && s.t.defs[id].status.Published? }

  /** PUBLISHED is entered only from APPROVED, by committing a publish of validated content. */
  lemma EnteredFromApproved(ready: Content -> bool, s: System, a: Action, id: Id)
    requires Inv(ready, s) && !Live(s, id) && Live(Step(ready, s, a), id)
    ensures id in s.t.defs && s.t.defs[id].status.Approved?
    ensures a.Commit? && a.h in s.pending && s.pending[a.h].Publish? && s.pending[a.h].id == id
  {
    if a.Commit? { assert Admitted(ready, s.pending[a.h]); }
  }

  /** Over whole runs: a live definition was APPROVED at some point, went live there, and has
      been live ever since. */
  lemma {:induction false} LiveWasApproved(ready: Content -> bool, acts: seq<Action>, id: Id) returns (i: nat)
    requires Live(Run(ready, acts), id)
    ensures i < |acts| && acts[i].Commit?
    ensures id in Run(ready, acts[..i]).t.defs && Run(ready, acts[..i]).t.defs[id].status.Approved?
    ensures forall j | i < j <= |acts| :: Live(Run(ready, acts[..j]), id)
  {
    var n := |acts| - 1;
    var front := acts[..n];
    assert acts[..|acts|] == acts;
    if Live(Run(ready, front), id) {
      i := LiveWasApproved(ready, front, id);
      assert forall j | 0 <= j <= n :: acts[..j] == front[..j];
    } else {
      AlwaysInv(ready, front);
      EnteredFromApproved(ready, Run(ready, front), acts[n], id);
      i := n;
    }
  }

  lemma StepAppends(ready: Content -> bool, s: System, a: Action, id: Id)
    requires a != Delete(id)
    ensures Rows(s.t, id) <= Rows(Step(ready, s, a).t, id)
  {
  }

  lemma PrefixTrans(a: seq<Revision>, b: seq<Revision>, c: seq<Revision>)
    requires a <= b && b <= c
    ensures a <= c
  {
  }

  /** Revisions are only ever appended, until the definition is deleted. */
  lemma {:induction false} HistoryKept(ready: Content -> bool, acts: seq<Action>, more: seq<Action>, id: Id)
    requires Delete(id) !in more
    ensures Rows(Run(ready, acts).t, id) <= Rows(Run(ready, acts + more).t, id)
  {
    hide Run, Step, Rows;
    if more == [] {
      assert acts + more == acts;
    } else {
      var n := |more| - 1;
      var front := acts + more[..n];
      HistoryKept(ready, acts, more[..n], id);
      assert acts + more == front + [more[n]];
      RunSnoc(ready, front, more[n]);
      assert more[n] in more;
      StepAppends(ready, Run(ready, front), more[n], id);
      PrefixTrans(Rows(Run(ready, acts).t, id), Rows(Run(ready, front).t, id), Rows(Run(ready, acts + more).t, id));
    }
  }

  // ---- If SetAPIStatus always fails ----

  /** No write of a setAPIStatusHandler gets through. */
  predicate RefusesStatus(s: System, a: Action) {
    a.Commit? && a.h in s.pending ==> !(s.pending[a.h].Move? && Routed(s.pending[a.h].to))
  }

  predicate RefusesAll(ready: Content -> bool, acts: seq<Action>) {
    acts == [] || (RefusesAll(ready, acts[..|acts| - 1])
        && RefusesStatus(Run(ready, acts[..|acts| - 1]), acts[|acts| - 1]))
  }

  ghost predicate AllDrafts(s: System) {
    && (forall id | id in s.t.defs :: s.t.defs[id].status.Draft?)
    && (forall h | h in s.pending :: s.pending[h].seen.status.Draft?)
  }

  lemma DraftsStep(ready: Content -> bool, s: System, a: Action)
    requires Inv(ready, s) && AllDrafts(s) && RefusesStatus(s, a)
    ensures AllDrafts(Step(ready, s, a))
  {
  }

  /** Should the store refuse every status write of these handlers, no definition ever leaves DRAFT
      and the gateway has nothing to serve. */
  lemma {:induction false} NothingLeavesDraft(ready: Content -> bool, acts: seq<Action>)
    requires RefusesAll(ready, acts)
    ensures AllDrafts(Run(ready, acts)) && Catalogue(Run(ready, acts).t) == map[]
  {
    if acts != [] {
      NothingLeavesDraft(ready, acts[..|acts| - 1]);
      AlwaysInv(ready, acts[..|acts| - 1]);
      DraftsStep(ready, Run(ready, acts[..|acts| - 1]), acts[|acts| - 1]);
    }
    NoLive(Run(ready, acts));
  }

  lemma NoLive(s: System)
    requires AllDrafts(s)
    ensures Catalogue(s.t) == map[]
  {
    assert Snapshots(s.t) == map[] && LiveDefinitions(s.t) == map[];
  }

  // ---- What holds when no definition changes between a handler's read and its write ----

  predicate Fresh(s: System, a: Action) {
    a.Commit? && a.h in s.pending && s.pending[a.h].id in s.t.defs ==>
      s.t.defs[s.pending[a.h].id] == s.pending[a.h].seen
  }

  predicate Undisturbed(ready: Content -> bool, acts: seq<Action>) {
    acts == [] || (Undisturbed(ready, acts[..|acts| - 1]) && Fresh(Run(ready, acts[..|acts| - 1]), acts[|acts| - 1]))
  }

  /** A legal change of one definition: none, an allowed transition, or the return to DRAFT on edit. */
  predicate Legal(from: Status, to: Status) {
    from == to || CanTransition(from, to) || (from.Published? && to.Draft?)
  }

  /** A write follows the lifecycle exactly when the status is still the one the handler read. */
  lemma MoveLegalIff(ready: Content -> bool, s: System, h: nat)
    requires Inv(ready, s) && h in s.pending && s.pending[h].Move? && s.pending[h].id in s.t.defs
    ensures var id := s.pending[h].id;
      CanTransition(s.t.defs[id].status, Step(ready, s, Commit(h)).t.defs[id].status)
      <==> s.t.defs[id].status == s.pending[h].seen.status
  {
    assert Admitted(ready, s.pending[h]);
  }

  /** What goes live is the current definition exactly when its content is still the one read. */
  lemma PublishCurrentIff(ready: Content -> bool, s: System, h: nat)
    requires Inv(ready, s) && h in s.pending && s.pending[h].Publish?
    requires s.pending[h].id in s.t.defs && s.t.defs[s.pending[h].id].status.Approved?
    ensures var id := s.pending[h].id; var n := Step(ready, s, Commit(h));
      Live(n, id) && (Catalogue(n.t)[id] == n.t.defs[id].content <==> s.t.defs[id].content == s.pending[h].seen.content)
  {
    var id := s.pending[h].id;
    StepKeeps(ready, s, Commit(h));
    CatalogueOf(ready, Step(ready, s, Commit(h)));
    assert RowsOk(ready, s.t, id);
  }

  lemma FreshIsLegal(ready: Content -> bool, s: System, a: Action, id: Id)
    requires Inv(ready, s) && Fresh(s, a) && id in s.t.defs && id in Step(ready, s, a).t.defs
    ensures Legal(s.t.defs[id].status, Step(ready, s, a).t.defs[id].status)
  {
    if a.Commit? && a.h in s.pending { assert Admitted(ready, s.pending[a.h]); }
  }

  lemma StepStays(ready: Content -> bool, s: System, a: Action, id: Id)
    requires id in s.t.defs && a != Delete(id)
    ensures id in Step(ready, s, a).t.defs
  {
  }

  lemma UndisturbedSnoc(ready: Content -> bool, acts: seq<Action>, a: Action)
    requires Undisturbed(ready, acts + [a])
    ensures Undisturbed(ready, acts) && Fresh(Run(ready, acts), a)
  {
    assert (acts + [a])[..|acts|] == acts;
  }

  /** Terminal statuses are never revived: only deletion removes such a definition. */
  lemma {:induction false} TerminalForever(ready: Content -> bool, acts: seq<Action>, more: seq<Action>, id: Id)
    requires Undisturbed(ready, acts + more) && Delete(id) !in more
    requires id in Run(ready, acts).t.defs && Terminal(Run(ready, acts).t.defs[id].status)
    ensures var t := Run(ready, acts + more).t; id in t.defs && t.defs[id].status == Run(ready, acts).t.defs[id].status
  {
    hide Run, Step;
    if more == [] {
      assert acts + more == acts;
    } else {
      var n := |more| - 1;
      var front := acts + more[..n];
      assert acts + more == front + [more[n]];
      UndisturbedSnoc(ready, front, more[n]);
      TerminalForever(ready, acts, more[..n], id);
      AlwaysInv(ready, front);
      assert more[n] in more;
      RunSnoc(ready, front, more[n]);
      StepStays(ready, Run(ready, front), more[n], id);
      FreshIsLegal(ready, Run(ready, front), more[n], id);
    }
  }

  /** One definition in step with its revisions: each PUBLISHED period adds one revision and its end
      by an edit adds one version, and what is live is the definition as it stands. */
  predicate InStep(t: Tables, id: Id) {
    id in t.defs ==>
      var d, rows := t.defs[id], Rows(t, id);
      && |rows| + (if d.status.Draft? || d.status.Review? || d.status.Approved? then 1 else 0) == d.version
      && (d.status.Published? ==> rows != [] && rows[|rows| - 1].content == d.content)
  }

  lemma InStepKept(ready: Content -> bool, s: System, a: Action, id: Id)
    requires Inv(ready, s) && Fresh(s, a) && InStep(s.t, id)
    ensures InStep(Step(ready, s, a).t, id)
  {
    assert RowsOk(ready, s.t, id);
    if a.Commit? && a.h in s.pending { assert Admitted(ready, s.pending[a.h]); }
  }

  lemma {:induction false} AlwaysInStep(ready: Content -> bool, acts: seq<Action>, id: Id)
    requires Undisturbed(ready, acts)
    ensures InStep(Run(ready, acts).t, id)
  {
    if acts != [] {
      AlwaysInStep(ready, acts[..|acts| - 1], id);
      AlwaysInv(ready, acts[..|acts| - 1]);
      InStepKept(ready, Run(ready, acts[..|acts| - 1]), acts[|acts| - 1], id);
    }
  }

  lemma CurrentOf(ready: Content -> bool, s: System)
    requires Inv(ready, s) && forall id :: InStep(s.t, id)
    ensures Catalogue(s.t) == LiveDefinitions(s.t)
  {
    hide Catalogue, Snapshots;
    CatalogueOf(ready, s);
    forall id | id in Catalogue(s.t) ensures Catalogue(s.t)[id] == s.t.defs[id].content { assert InStep(s.t, id); }
  }

  /** The gateway then serves exactly the live definitions as they stand. */
  lemma CatalogueIsCurrent(ready: Content -> bool, acts: seq<Action>)
    requires Undisturbed(ready, acts)
    ensures Catalogue(Run(ready, acts).t) == LiveDefinitions(Run(ready, acts).t)
  {
    AlwaysInv(ready, acts);
    forall id ensures InStep(Run(ready, acts).t, id) { AlwaysInStep(ready, acts, id); }
    CurrentOf(ready, Run(ready, acts));
  }

  // ---- And when one does ----

  lemma RunNext(ready: Content -> bool, acts: seq<Action>, k: nat)
    requires k < |acts|
    ensures Run(ready, acts[..k + 1]) == Step(ready, Run(ready, acts[..k]), acts[k])
  {
    assert acts[..k + 1] == acts[..k] + [acts[k]];
    RunSnoc(ready, acts[..k], acts[k]);
  }

  lemma RunStarts(ready: Content -> bool, acts: seq<Action>)
    ensures Run(ready, acts[..0]) == START
  {
  }

  /** A store with the single definition 0. */
  function Only(d: Definition, revs: map<Id, seq<Revision>>, pending: map<nat, Op>): System {
    System(Tables(map[0 := d], revs), pending)
  }

  lemma ReadsMove(ready: Content -> bool, d: Definition, revs: map<Id, seq<Revision>>, p: map<nat, Op>, h: nat,
      to: Status)
    requires h !in p && Admitted(ready, Move(0, to, d))
    ensures Step(ready, Only(d, revs, p), ReadMove(h, 0, to)) == Only(d, revs, p[h := Move(0, to, d)])
  {
  }

  lemma CommitsMove(ready: Content -> bool, d: Definition, revs: map<Id, seq<Revision>>, p: map<nat, Op>, h: nat,
      op: Op)
    requires h !in p && op.Move? && op.id == 0
    ensures Step(ready, Only(d, revs, p[h := op]), Commit(h)) == Only(d.(status := op.to), revs, p)
  {
    assert p[h := op] - {h} == p;
  }

  lemma ReadsPublish(ready: Content -> bool, d: Definition, p: map<nat, Op>, h: nat)
    requires h !in p && Admitted(ready, Publish(0, d))
    ensures Step(ready, Only(d, map[], p), ReadPublish(h, 0)) == Only(d, map[], p[h := Publish(0, d)])
  {
  }

  lemma CommitsPublish(ready: Content -> bool, d: Definition, p: map<nat, Op>, h: nat, seen: Definition)
    requires h !in p && d.status.Approved?
    ensures Step(ready, Only(d, map[], p[h := Publish(0, seen)]), Commit(h))
         == Only(d.(status := Published), map[0 := [Revision(1, seen.content)]], p)
  {
    assert p[h := Publish(0, seen)] - {h} == p;
    assert MaxRevision([]) == 0 && [] + [Revision(1, seen.content)] == [Revision(1, seen.content)];
  }

  lemma FirstThree(ready: Content -> bool, acts: seq<Action>, c: Content)
    requires |acts| > 3 && acts[..3] == [Create(0, c), ReadMove(0, 0, Review), Commit(0)]
    ensures Run(ready, acts[..3]) == Only(Definition(c, Review, 1), map[], map[])
  {
    hide Run;
    RunStarts(ready, acts);
    RunNext(ready, acts, 0);
    RunNext(ready, acts, 1);
    RunNext(ready, acts, 2);
    assert acts[0] == acts[..3][0] && acts[1] == acts[..3][1] && acts[2] == acts[..3][2];
    var d := Definition(c, Draft, 1);
    ReadsMove(ready, d, map[], map[], 0, Review);
    CommitsMove(ready, d, map[], map[], 0, Move(0, Review, d));
  }

  const EDIT_DURING_PUBLISH := [
    Create(0, "old"), ReadMove(0, 0, Review), Commit(0), ReadMove(1, 0, Approved), Commit(1),
    ReadPublish(2, 0), Update(0, "new"), Commit(2)]

  /** An edit between a publish's read and its write: the definition says one thing, the
      gateway serves another. */
  lemma StalePublish(ready: Content -> bool)
    requires ready("old")
    ensures var t := Run(ready, EDIT_DURING_PUBLISH).t;
      0 in t.defs && t.defs[0] == Definition("new", Published, 1) && 0 in Catalogue(t) && Catalogue(t)[0] == "old"
  {
    hide Run, Step, Catalogue;
    var acts := EDIT_DURING_PUBLISH;
    FirstThree(ready, acts, "old");
    var d, a := Definition("old", Review, 1), Definition("old", Approved, 1);
    RunNext(ready, acts, 3);
    ReadsMove(ready, d, map[], map[], 1, Approved);
    RunNext(ready, acts, 4);
    CommitsMove(ready, d, map[], map[], 1, Move(0, Approved, d));
    RunNext(ready, acts, 5);
    ReadsPublish(ready, a, map[], 2);
    RunNext(ready, acts, 6);
    EditsOnly(ready, a, map[], map[2 := Publish(0, a)], "new");
    RunNext(ready, acts, 7);
    CommitsPublish(ready, Definition("new", Approved, 1), map[], 2, a);
    assert acts[..8] == acts;
    AlwaysInv(ready, acts);
    CatalogueOf(ready, Run(ready, acts));
  }

  lemma EditsOnly(ready: Content -> bool, d: Definition, revs: map<Id, seq<Revision>>, p: map<nat, Op>, c: Content)
    ensures Step(ready, Only(d, revs, p), Update(0, c)) == Only(Edited(d, c), revs, p)
  {
  }

  const DOUBLE_APPROVAL := [
    Create(0, "c"), ReadMove(0, 0, Review), Commit(0), ReadMove(1, 0, Approved), ReadMove(2, 0, Approved), Commit(1),
    ReadPublish(3, 0), Commit(3), ReadMove(4, 0, Disabled), Commit(4), Commit(2)]

  /** An approval that read REVIEW and writes late revives a DISABLED definition. */
  lemma TerminalRevived(ready: Content -> bool)
    requires ready("c")
    ensures 0 in Run(ready, DOUBLE_APPROVAL[..10]).t.defs
        && Run(ready, DOUBLE_APPROVAL[..10]).t.defs[0].status == Disabled
    ensures 0 in Run(ready, DOUBLE_APPROVAL).t.defs && Run(ready, DOUBLE_APPROVAL).t.defs[0].status == Approved
  {
    hide Run, Step;
    var acts := DOUBLE_APPROVAL;
    FirstThree(ready, acts, "c");
    var d, a, live := Definition("c", Review, 1), Definition("c", Approved, 1), Definition("c", Published, 1);
    var one, late, revs := Move(0, Approved, d), map[2 := Move(0, Approved, d)], map[0 := [Revision(1, "c")]];
    RunNext(ready, acts, 3);
    ReadsMove(ready, d, map[], map[], 1, Approved);
    RunNext(ready, acts, 4);
    ReadsMove(ready, d, map[], map[1 := one], 2, Approved);
    assert map[1 := one][2 := one] == late[1 := one];
    RunNext(ready, acts, 5);
    CommitsMove(ready, d, map[], late, 1, one);
    RunNext(ready, acts, 6);
    ReadsPublish(ready, a, late, 3);
    RunNext(ready, acts, 7);
    CommitsPublish(ready, a, late, 3, a);
    RunNext(ready, acts, 8);
    ReadsMove(ready, live, revs, late, 4, Disabled);
    RunNext(ready, acts, 9);
    CommitsMove(ready, live, revs, late, 4, Move(0, Disabled, live));
    RunNext(ready, acts, 10);
    CommitsMove(ready, live.(status := Disabled), revs, map[], 2, one);
    assert map[][2 := one] == late;
    assert acts[..11] == acts;
  }
}
