/**
 Versions of a service: creating, staging, publishing, promoting and rolling back.
 internal/repository/sqlstore/service_catalog.go and the loading of the served version in
 internal/service/catalog/runtime.go. Rows are read before the transaction that uses them begins, so other
 requests may commit in between.
 */
module ServiceVersions {
  import opened Options

  type Id = string
  datatype Status = Draft | Published | Staged | Archived
  datatype Snapshot = Snapshot(requestPrefix: string, body: string)
  datatype Version = Version(id: Id, number: nat, status: Status, snapshot: Snapshot)

  /** One services row with its service_versions rows. */
  datatype Service = Service(
    record: Snapshot, versions: seq<Version>, published: Option<Id>, staged: Option<Id>, publishStatus: Status)

  datatype Ref = ById(id: Id) | ByNumber(number: int)

  predicate Live(v: Version) { v.status == Published || v.status == Staged }

  /** The status a publish mode asks for; an unknown mode asks for none. */
  function Target(mode: string): Option<Status> {
    if mode == "" || mode == "active" || mode == "published" then Some(Published)
    else if mode == "stage" || mode == "staged" then Some(Staged)
    else None
  }

  predicate Matches(v: Version, r: Ref) {
    match r case ById(id) => v.id == id case ByNumber(n) => v.number == n
  }

  function Lookup(vs: seq<Version>, r: Ref): (v: Option<Version>)
    ensures v.Some? ==> v.value in vs && Matches(v.value, r)
    ensures v.None? ==> forall i :: 0 <= i < |vs| ==> !Matches(vs[i], r)
  {
    if vs == [] then None else if Matches(vs[0], r) then Some(vs[0]) else Lookup(vs[1..], r)
  }

  function MaxNumber(vs: seq<Version>): (m: nat)
    ensures forall i :: 0 <= i < |vs| ==> vs[i].number <= m
    ensures m == 0 || exists i :: 0 <= i < |vs| && vs[i].number == m
  {
    if vs == [] then 0
    else
      var n, k := MaxNumber(vs[..|vs| - 1]), vs[|vs| - 1].number;
      assert forall i :: 0 <= i < |vs| - 1 ==> vs[i] == vs[..|vs| - 1][i];
      if k > n then k else n
  }

  function Marked(v: Version, id: Id, status: Status): Version {
    if v.id == id then v.(status := status) else if Live(v) then v.(status := Archived) else v
  }

  function Mark(vs: seq<Version>, id: Id, status: Status): (r: seq<Version>)
    ensures |r| == |vs|
    ensures forall i :: 0 <= i < |vs| ==> r[i].id == vs[i].id && r[i].number == vs[i].number
    ensures forall i :: 0 <= i < |vs| ==> if r[i].id == id then r[i].status == status else !Live(r[i])
  {
    seq(|vs|, i requires 0 <= i < |vs| => Marked(vs[i], id, status))
  }

  // ---- The transactions ----

  /** The snapshot of a new version: the one given, or the service record as it was read. */
  function Body(record: Snapshot, given: Snapshot): Snapshot { if given.requestPrefix == "" then record else given }

  /** `body` was settled before the transaction began. */
  function Created(s: Service, id: Id, body: Snapshot): Service {
    s.(versions := s.versions + [Version(id, MaxNumber(s.versions) + 1, Draft, body)])
  }

  /** `seen` is the published pointer read before the transaction began. */
  function Transitioned(s: Service, id: Id, mode: string, seen: Option<Id>): Service {
    match Target(mode)
    case None => s
    case Some(st) =>
      var vs := Mark(s.versions, id, st);
      if st == Staged then s.(versions := vs, published := seen, staged := Some(id), publishStatus := Staged)
      else s.(versions := vs, published := Some(id), staged := None, publishStatus := Published)
  }

  class Store {
    var record: Snapshot
    var versions: seq<Version>
    var published: Option<Id>
    var staged: Option<Id>
    var publishStatus: Status

    ghost function State(): Service
      reads this
    {
      Service(record, versions, published, staged, publishStatus)
    }

    constructor (record: Snapshot)
      ensures State() == Service(record, [], None, None, Draft)
    {
      this.record := record;
      versions, published, staged, publishStatus := [], None, None, Draft;
    }

    /** What CreateServiceVersion settles before its transaction. */
    method LoadBody(given: Snapshot) returns (body: Snapshot)
      ensures body == if given.requestPrefix != "" then given else record
    {
      body := given;
      if body.requestPrefix == "" {
        body := record;
      }
    }

    /** CreateServiceVersion's transaction. */
    method InsertVersion(id: Id, body: Snapshot)
      modifies this
      ensures State() == Created(old(State()), id, body)
    {
      var max := 0;
      for i := 0 to |versions|
        invariant max == MaxNumber(versions[..i])
      {
        assert versions[..i + 1][..i] == versions[..i];
        max := if versions[i].number > max then versions[i].number else max;
      }
      assert versions[..|versions|] == versions;
      versions := versions + [Version(id, max + 1, Draft, body)];
    }

    /** CreateServiceVersion, nothing else running. */
    method CreateServiceVersion(id: Id, given: Snapshot)
      modifies this
      ensures State() == Created(old(State()), id, Body(old(record), given))
    {
      var body := LoadBody(given);
      InsertVersion(id, body);
    }

    /** transitionServiceVersion's transaction; false when it rolled back. */
    method TransitionTx(id: Id, mode: string, seen: Option<Id>) returns (ok: bool)
      modifies this
      ensures ok == Target(mode).Some?
      ensures State() == Transitioned(old(State()), id, mode, seen)
    {
      var m := mode;
      if m == "" || m == "active" {
        m := "published";
      }
      if m == "stage" {
        m := "staged";
      }
      var before := versions;
      var status := if m == "staged" then Staged else Published;
      var rows := [];
      for i := 0 to |before|
        invariant rows == Mark(before[..i], id, status)
      {
        var v := before[i];
        rows := rows + [if v.id == id then v.(status := status)
                        else if v.status == Published || v.status == Staged then v.(status := Archived) else v];
        assert before[..i + 1] == before[..i] + [v];
      }
      assert before[..|before|] == before;
      versions := rows;
      if m == "staged" {
        published, staged, publishStatus := seen, Some(id), Staged;
      } else if m == "published" {
        published, staged, publishStatus := Some(id), None, Published;
      } else {
        versions := before;
        return false;
      }
      ok := true;
    }

    /** PublishServiceVersion and RollbackServiceVersion, nothing else running. */
    method Transition(r: Ref, mode: string) returns (ok: bool)
      modifies this
      ensures ok == (Lookup(old(versions), r).Some? && Target(mode).Some?)
      ensures State() == if Lookup(old(versions), r).Some?
                         then Transitioned(old(State()), Lookup(old(versions), r).value.id, mode, old(published))
                         else old(State())
    {
      var v := Lookup(versions, r);
      if v.None? {
        return false;
      }
      ok := TransitionTx(v.value.id, mode, published);
    }

    method PromoteStaged() returns (ok: bool)
      modifies this
      ensures ok == (old(staged).Some? && Lookup(old(versions), ById(old(staged).value)).Some?)
      ensures State() == if ok then Transitioned(old(State()), old(staged).value, "published", old(published))
        else old(State())
    {
      if staged.None? {
        return false;
      }
      ok := Transition(ById(staged.value), "published");
    }
  }

  /** loadPublishedService: what requests are answered with. */
  function Served(s: Service): Option<Snapshot> {
    if s.published.None? then None
    else
      var v := Lookup(s.versions, ById(s.published.value));
      if v.Some? then Some(v.value.snapshot) else None
  }

  // ---- Concurrent requests ----

  /** A request before its reads, and between its reads and its transaction. */
  datatype Ticket =
    | Wants(ref: Ref, mode: string)
    | Loaded(id: Id, mode: string, seen: Option<Id>)
    | Drafting(body: Snapshot)

  datatype System = System(service: Service, tickets: map<nat, Ticket>)

  datatype Event =
    | BeginCreate(t: nat, given: Snapshot)   // reads the service row
    | Insert(t: nat, id: Id)
    | Edit(record: Snapshot)                 // UpdateService
    | Begin(t: nat, ref: Ref, mode: string)  // publish, stage or roll back
    | BeginPromote(t: nat)                   // reads the staged pointer
    | Load(t: nat)                           // reads the service and version rows
    | Commit(t: nat)

  /** Fresh ids for versions and requests. */
  predicate Enabled(s: System, e: Event) {
    match e
    case BeginCreate(t, _) => t !in s.tickets
    case Insert(t, id) => t in s.tickets && s.tickets[t].Drafting? && Lookup(s.service.versions, ById(id)).None?
    case Edit(_) => true
    case Begin(t, _, _) => t !in s.tickets
    case BeginPromote(t) => t !in s.tickets
    case Load(t) => t in s.tickets && s.tickets[t].Wants?
    case Commit(t) => t in s.tickets && s.tickets[t].Loaded?
  }

  function Next(s: System, e: Event): System
    requires Enabled(s, e)
  {
    match e
    case BeginCreate(t, given) => s.(tickets := s.tickets[t := Drafting(Body(s.service.record, given))])
    case Insert(t, id) => System(Created(s.service, id, s.tickets[t].body), s.tickets - {t})
    case Edit(record) => s.(service := s.service.(record := record))
    case Begin(t, ref, mode) => s.(tickets := s.tickets[t := Wants(ref, mode)])
    case BeginPromote(t) =>
      if s.service.staged.None? then s
      else s.(tickets := s.tickets[t := Wants(ById(s.service.staged.value), "published")])
    case Load(t) =>
      var v := Lookup(s.service.versions, s.tickets[t].ref);
      if v.None? then s.(tickets := s.tickets - {t})
      else s.(tickets := s.tickets[t := Loaded(v.value.id, s.tickets[t].mode, s.service.published)])
    case Commit(t) =>
      var k := s.tickets[t];
      System(Transitioned(s.service, k.id, k.mode, k.seen), s.tickets - {t})
  }

  function Fresh(record: Snapshot): System { System(Service(record, [], None, None, Draft), map[]) }

  ghost predicate ValidRun(record: Snapshot, es: seq<Event>)
    decreases |es|, 0
  {
    es == [] ||
    (ValidRun(record, es[..|es| - 1]) && Enabled(Exec(record, es[..|es| - 1]), es[|es| - 1]))
  }

  ghost function Exec(record: Snapshot, es: seq<Event>): System
    requires ValidRun(record, es)
    decreases |es|, 1
  {
    if es == [] then Fresh(record) else Next(Exec(record, es[..|es| - 1]), es[|es| - 1])
  }

  // ---- The invariant ----

  ghost predicate Numbered(vs: seq<Version>) {
    && (forall i :: 0 <= i < |vs| ==> vs[i].number == i + 1)
    && (forall i, j :: 0 <= i < j < |vs| ==> vs[i].id != vs[j].id)
  }

  ghost predicate Holds(vs: seq<Version>, id: Id) { Lookup(vs, ById(id)).Some? }

  /** The one live version is the one the record names for its publish status. */
  ghost predicate NamesLive(s: Service) {
    && (s.publishStatus == Staged <==> s.staged.Some?)
    && (match s.publishStatus
        case Draft => s.published.None? && forall i :: 0 <= i < |s.versions| ==> !Live(s.versions[i])
        case Published => s.published.Some? && OnlyLive(s.versions, s.published.value, Published)
        case Staged => OnlyLive(s.versions, s.staged.value, Staged)
        case Archived => false)
  }

  ghost predicate OnlyLive(vs: seq<Version>, id: Id, st: Status) {
    && Holds(vs, id)
    && forall i :: 0 <= i < |vs| ==> if vs[i].id == id then vs[i].status == st else !Live(vs[i])
  }

  ghost predicate PointersHeld(vs: seq<Version>, p: Option<Id>) { p.Some? ==> Holds(vs, p.value) }

  ghost predicate TicketOk(vs: seq<Version>, k: Ticket) {
    k.Loaded? ==> Holds(vs, k.id) && PointersHeld(vs, k.seen)
  }

  ghost predicate Inv(s: System) {
    && Numbered(s.service.versions)
    && NamesLive(s.service)
    && PointersHeld(s.service.versions, s.service.published)
    && forall t :: t in s.tickets ==> TicketOk(s.service.versions, s.tickets[t])
  }

  lemma {:induction false} MarkKeeps(vs: seq<Version>, id: Id, st: Status, r: Ref)
    ensures var m, v := Lookup(Mark(vs, id, st), r), Lookup(vs, r);
      (m.Some? <==> v.Some?) && (m.Some? ==> m.value.id == v.value.id && m.value.snapshot == v.value.snapshot)
  {
    if vs != [] && !Matches(vs[0], r) {
      assert Mark(vs, id, st)[1..] == Mark(vs[1..], id, st);
      MarkKeeps(vs[1..], id, st, r);
    }
  }

  lemma {:induction false} AppendKeeps(vs: seq<Version>, v: Version, r: Ref)
    ensures Lookup(vs + [v], r) == if Lookup(vs, r).Some? then Lookup(vs, r)
                                   else if Matches(v, r) then Some(v) else None
  {
    if vs != [] {
      assert (vs + [v])[1..] == vs[1..] + [v];
      AppendKeeps(vs[1..], v, r);
    } else {
      assert [] + [v] == [v] && [v][1..] == [];
    }
  }

  lemma {:induction false} AppendNumbered(vs: seq<Version>, v: Version)
    requires Numbered(vs) && Lookup(vs, ById(v.id)).None? && v.number == MaxNumber(vs) + 1
    ensures Numbered(vs + [v])
  {
    NumbersAreLength(vs);
    forall i | 0 <= i < |vs| ensures vs[i].id != v.id {
      assert !Matches(vs[i], ById(v.id));
    }
  }

  lemma {:induction false} AppendNamesLive(s: Service, v: Version)
    requires NamesLive(s) && Lookup(s.versions, ById(v.id)).None? && v.status == Draft
    ensures NamesLive(s.(versions := s.versions + [v]))
  {
    if s.publishStatus != Draft {
      var named := if s.publishStatus == Staged then s.staged.value else s.published.value;
      AppendKeeps(s.versions, v, ById(named));
    }
  }

  lemma {:induction false} AppendKeepsTicket(vs: seq<Version>, v: Version, k: Ticket)
    requires TicketOk(vs, k)
    ensures TicketOk(vs + [v], k)
  {
    if k.Loaded? {
      AppendKeeps(vs, v, ById(k.id));
      if k.seen.Some? {
        AppendKeeps(vs, v, ById(k.seen.value));
      }
    }
  }

  lemma {:induction false} InsertKeepsInv(s: System, t: nat, id: Id)
    requires Inv(s) && Enabled(s, Insert(t, id))
    ensures Inv(Next(s, Insert(t, id)))
  {
    var vs, s' := s.service.versions, Next(s, Insert(t, id));
    var v := s'.service.versions[|vs|];
    AppendNumbered(vs, v);
    AppendNamesLive(s.service, v);
    if s.service.published.Some? {
      AppendKeeps(vs, v, ById(s.service.published.value));
    }
    forall u | u in s'.tickets ensures TicketOk(vs + [v], s'.tickets[u]) {
      AppendKeepsTicket(vs, v, s.tickets[u]);
    }
  }

  lemma {:induction false} MarkOnlyLive(vs: seq<Version>, id: Id, st: Status)
    requires Numbered(vs) && Holds(vs, id)
    ensures Numbered(Mark(vs, id, st)) && OnlyLive(Mark(vs, id, st), id, st)
  {
    MarkKeeps(vs, id, st, ById(id));
  }

  lemma {:induction false} MarkKeepsTicket(vs: seq<Version>, id: Id, st: Status, k: Ticket)
    requires TicketOk(vs, k)
    ensures TicketOk(Mark(vs, id, st), k)
  {
    if k.Loaded? {
      MarkKeeps(vs, id, st, ById(k.id));
      if k.seen.Some? {
        MarkKeeps(vs, id, st, ById(k.seen.value));
      }
    }
  }

  lemma {:induction false} TransitionNamesLive(s: Service, id: Id, mode: string, seen: Option<Id>)
    requires Numbered(s.versions) && NamesLive(s) && Holds(s.versions, id)
    ensures Numbered(Transitioned(s, id, mode, seen).versions) && NamesLive(Transitioned(s, id, mode, seen))
  {
    if Target(mode).Some? {
      MarkOnlyLive(s.versions, id, Target(mode).value);
    }
  }

  lemma {:induction false} CommitKeepsInv(s: System, t: nat)
    requires Inv(s) && Enabled(s, Commit(t))
    ensures Inv(Next(s, Commit(t)))
  {
    var k, vs := s.tickets[t], s.service.versions;
    assert TicketOk(vs, k);
    TransitionNamesLive(s.service, k.id, k.mode, k.seen);
    if Target(k.mode).Some? {
      var st := Target(k.mode).value;
      MarkKeepsTicket(vs, k.id, st, k);
      forall u | u in s.tickets ensures TicketOk(Mark(vs, k.id, st), s.tickets[u]) {
        MarkKeepsTicket(vs, k.id, st, s.tickets[u]);
      }
    }
  }

  lemma {:induction false} StepKeepsInv(s: System, e: Event)
    requires Inv(s) && Enabled(s, e)
    ensures Inv(Next(s, e))
  {
    match e
    case Insert(t, id) => InsertKeepsInv(s, t, id);
    case Commit(t) => CommitKeepsInv(s, t);
    case Load(t) =>
      var vs, r := s.service.versions, s.tickets[t].ref;
      var v := Lookup(vs, r);
      if v.Some? {
        var i :| 0 <= i < |vs| && vs[i] == v.value;
        assert Matches(vs[i], ById(v.value.id));
      }
    case _ =>
  }

  lemma {:induction false} RunKeepsInv(record: Snapshot, es: seq<Event>)
    requires ValidRun(record, es)
    ensures Inv(Exec(record, es))
  {
    if es != [] {
      RunKeepsInv(record, es[..|es| - 1]);
      StepKeepsInv(Exec(record, es[..|es| - 1]), es[|es| - 1]);
    }
  }

  /** In every interleaving: versions are numbered 1 to n, at most one is published or staged, it is the one the
      record names for its publish status, and a published pointer always finds a version to serve. */
  lemma {:induction false} VersionsAlwaysConsistent(record: Snapshot, es: seq<Event>)
    requires ValidRun(record, es)
    ensures var s := Exec(record, es).service;
      && (forall i :: 0 <= i < |s.versions| ==> s.versions[i].number == i + 1)
      && (forall i, j :: 0 <= i < j < |s.versions| ==> !(Live(s.versions[i]) && Live(s.versions[j])))
      && (forall i :: 0 <= i < |s.versions| ==>
            && (s.versions[i].status == Published <==>
                s.publishStatus == Published && s.published == Some(s.versions[i].id))
            && (s.versions[i].status == Staged <==> s.publishStatus == Staged && s.staged == Some(s.versions[i].id)))
      && (s.published.Some? <==> Served(s).Some?)
  {
    RunKeepsInv(record, es);
    var s := Exec(record, es).service;
    if s.publishStatus == Published {
      assert OnlyLive(s.versions, s.published.value, Published);
    } else if s.publishStatus == Staged {
      assert OnlyLive(s.versions, s.staged.value, Staged);
    }
  }

  // ---- What is served ----

  /** The version this event publishes, if it commits a publish. */
  function Publishes(s: System, e: Event): Option<Id>
    requires Enabled(s, e)
  {
    if e.Commit? && Target(s.tickets[e.t].mode) == Some(Published) then Some(s.tickets[e.t].id) else None
  }

  /** This event commits a staging whose pointer to the published version went stale since it was read. */
  predicate StaleStaging(s: System, e: Event)
    requires Enabled(s, e)
  {
    e.Commit? && Target(s.tickets[e.t].mode) == Some(Staged) && s.tickets[e.t].seen != s.service.published
  }

  lemma {:induction false} StepPublished(s: System, e: Event)
    requires Enabled(s, e)
    ensures var p := Next(s, e).service.published;
      if Publishes(s, e).Some? then p == Publishes(s, e)
      else p == s.service.published <==> !StaleStaging(s, e)
  {
  }

  /** Rows keep their snapshot: a version that could be served before a step has the same content after it. */
  lemma {:induction false} SnapshotsNeverChange(s: System, e: Event, id: Id)
    requires Inv(s) && Enabled(s, e) && Holds(s.service.versions, id)
    ensures Holds(Next(s, e).service.versions, id)
    ensures Lookup(Next(s, e).service.versions, ById(id)).value.snapshot ==
      Lookup(s.service.versions, ById(id)).value.snapshot
  {
    match e
    case Insert(_, _) =>
      AppendKeeps(s.service.versions, Next(s, e).service.versions[|s.service.versions|], ById(id));
    case Commit(t) =>
      if Target(s.tickets[t].mode).Some? {
        MarkKeeps(s.service.versions, s.tickets[t].id, Target(s.tickets[t].mode).value, ById(id));
      }
    case _ =>
  }

  /** Creating, editing, beginning, loading and staging leave what is served alone, save for a stale staging. */
  lemma {:induction false} ServedChangesOnlyOnPublish(record: Snapshot, es: seq<Event>, e: Event)
    requires ValidRun(record, es) && Enabled(Exec(record, es), e)
    requires Publishes(Exec(record, es), e) == None && !StaleStaging(Exec(record, es), e)
    ensures Served(Next(Exec(record, es), e).service) == Served(Exec(record, es).service)
  {
    var s := Exec(record, es);
    RunKeepsInv(record, es);
    StepPublished(s, e);
    if s.service.published.Some? {
      SnapshotsNeverChange(s, e, s.service.published.value);
    }
  }

  /** A committed publish, promote or rollback serves the snapshot of its own version from then on. */
  lemma {:induction false} PublishIsServed(record: Snapshot, es: seq<Event>, e: Event)
    requires ValidRun(record, es) && Enabled(Exec(record, es), e) && Publishes(Exec(record, es), e).Some?
    ensures var s, id := Exec(record, es), Publishes(Exec(record, es), e).value;
      && Holds(s.service.versions, id)
      && Served(Next(s, e).service) == Some(Lookup(s.service.versions, ById(id)).value.snapshot)
  {
    var s := Exec(record, es);
    RunKeepsInv(record, es);
    assert TicketOk(s.service.versions, s.tickets[e.t]);
    StepPublished(s, e);
    SnapshotsNeverChange(s, e, s.tickets[e.t].id);
  }

  /** An undisturbed promote publishes exactly the staged version and leaves nothing staged. */
  lemma {:induction false} PromotePublishesStaged(s: System, t: nat)
    requires Inv(s) && t !in s.tickets && s.service.staged.Some?
    ensures Enabled(s, BeginPromote(t)) && Enabled(Next(s, BeginPromote(t)), Load(t))
    ensures var s2 := Next(Next(s, BeginPromote(t)), Load(t));
      && Enabled(s2, Commit(t)) && Publishes(s2, Commit(t)) == s.service.staged
      && Next(s2, Commit(t)).service.staged == None
  {
    assert OnlyLive(s.service.versions, s.service.staged.value, Staged);
  }

  /** The version of the last publish, promote or rollback to commit. */
  ghost function LastPublished(record: Snapshot, es: seq<Event>): Option<Id>
    requires ValidRun(record, es)
  {
    if es == [] then None
    else
      var init, e := es[..|es| - 1], es[|es| - 1];
      var p := Publishes(Exec(record, init), e);
      if p.Some? then p else LastPublished(record, init)
  }

  ghost predicate FollowsPublishes(record: Snapshot, es: seq<Event>)
    requires ValidRun(record, es)
  {
    && Exec(record, es).service.published == LastPublished(record, es)
    && (es != [] ==> FollowsPublishes(record, es[..|es| - 1]))
  }

  ghost predicate NoStaleStaging(record: Snapshot, es: seq<Event>)
    requires ValidRun(record, es)
  {
    es != [] ==>
      NoStaleStaging(record, es[..|es| - 1]) && !StaleStaging(Exec(record, es[..|es| - 1]), es[|es| - 1])
  }

  /** The served version is at every moment the one last published, iff no staging commits with a published pointer
      that was overtaken after it was read. */
  lemma {:induction false} ServesLastPublishedExactly(record: Snapshot, es: seq<Event>)
    requires ValidRun(record, es)
    ensures FollowsPublishes(record, es) <==> NoStaleStaging(record, es)
  {
    if es != [] {
      var init := es[..|es| - 1];
      ServesLastPublishedExactly(record, init);
      StepPublished(Exec(record, init), es[|es| - 1]);
    }
  }

  /** A publish that commits between a staging's read and its transaction is undone by the staging. */
  lemma {:induction false} StagingUndoesPublish(s: System, stage: nat, publish: nat)
    requires stage in s.tickets && s.tickets[stage].Loaded? && Target(s.tickets[stage].mode) == Some(Staged)
    requires s.tickets[stage].seen == s.service.published
    requires publish in s.tickets && s.tickets[publish].Loaded? && Target(s.tickets[publish].mode) == Some(Published)
    requires s.service.published != Some(s.tickets[publish].id)
    ensures Enabled(s, Commit(publish)) && Enabled(Next(s, Commit(publish)), Commit(stage))
    ensures var s1 := Next(s, Commit(publish)); var s2 := Next(s1, Commit(stage));
      s1.service.published == Some(s.tickets[publish].id) && s2.service.published == s.service.published
  {
    assert stage != publish;
  }

  lemma {:induction false} RunOne(record: Snapshot, es: seq<Event>, e: Event)
    requires ValidRun(record, es) && Enabled(Exec(record, es), e)
    ensures ValidRun(record, es + [e]) && Exec(record, es + [e]) == Next(Exec(record, es), e)
    ensures var p := Publishes(Exec(record, es), e);
      LastPublished(record, es + [e]) == if p.Some? then p else LastPublished(record, es)
  {
    assert (es + [e])[..|es|] == es;
  }

  lemma {:induction false} DraftOne(record: Snapshot, es: seq<Event>, given: Snapshot, id: Id) returns (r: seq<Event>)
    requires ValidRun(record, es) && Exec(record, es).tickets == map[] && !Holds(Exec(record, es).service.versions, id)
    ensures ValidRun(record, r) && Exec(record, r).tickets == map[]
    ensures var s := Exec(record, es).service;
      Exec(record, r).service == Created(s, id, Body(s.record, given))
  {
    RunOne(record, es, BeginCreate(0, given));
    RunOne(record, es + [BeginCreate(0, given)], Insert(0, id));
    r := es + [BeginCreate(0, given)] + [Insert(0, id)];
  }

  lemma {:induction false} TwoDrafts(record: Snapshot, given: Snapshot) returns (r: seq<Event>)
    ensures ValidRun(record, r)
    ensures Exec(record, r).tickets == map[]
    ensures Exec(record, r).service.published == None && Exec(record, r).service.staged == None
    ensures Holds(Exec(record, r).service.versions, "a") && Holds(Exec(record, r).service.versions, "b")
  {
    assert Exec(record, []) == Fresh(record);
    var r1 := DraftOne(record, [], given, "a");
    var vs := Exec(record, r1).service.versions;
    assert vs == [] + [vs[0]];
    AppendKeeps([], vs[0], ById("a"));
    AppendKeeps([], vs[0], ById("b"));
    r := DraftOne(record, r1, given, "b");
    var ws := Exec(record, r).service.versions;
    assert ws == vs + [ws[1]];
    AppendKeeps(vs, ws[1], ById("a"));
    AppendKeeps(vs, ws[1], ById("b"));
  }

  lemma {:induction false} BeginAndLoad(record: Snapshot, es: seq<Event>, t: nat, id: Id, mode: string)
    returns (r: seq<Event>)
    requires ValidRun(record, es) && t !in Exec(record, es).tickets && Holds(Exec(record, es).service.versions, id)
    ensures ValidRun(record, r) && Exec(record, r).service == Exec(record, es).service
    ensures Exec(record, r).tickets ==
      Exec(record, es).tickets[t := Loaded(id, mode, Exec(record, es).service.published)]
  {
    RunOne(record, es, Begin(t, ById(id), mode));
    RunOne(record, es + [Begin(t, ById(id), mode)], Load(t));
    r := es + [Begin(t, ById(id), mode)] + [Load(t)];
  }

  lemma {:induction false} StagingUndoes(record: Snapshot, r: seq<Event>) returns (es: seq<Event>)
    requires ValidRun(record, r) && Exec(record, r).service.published == None
    requires Exec(record, r).tickets == map[0 := Loaded("a", "stage", None), 1 := Loaded("b", "", None)]
    ensures ValidRun(record, es) && LastPublished(record, es) == Some("b") && Exec(record, es).service.published == None
  {
    StagingUndoesPublish(Exec(record, r), 0, 1);
    RunOne(record, r, Commit(1));
    RunOne(record, r + [Commit(1)], Commit(0));
    es := r + [Commit(1)] + [Commit(0)];
  }

  /** Such a run from a new service: b is published, and then nothing is. */
  lemma {:induction false} StagingCanUnpublish(record: Snapshot, snapshot: Snapshot)
    ensures exists es: seq<Event> :: ValidRun(record, es) && LastPublished(record, es) == Some("b")
                                  && Exec(record, es).service.published == None
  {
    var r0 := TwoDrafts(record, snapshot);
    var r1 := BeginAndLoad(record, r0, 0, "a", "stage");
    var r2 := BeginAndLoad(record, r1, 1, "b", "");
    var es := StagingUndoes(record, r2);
  }

  /** Which status each publish mode ends a version with, and that no other mode changes anything. */
  lemma {:induction false} CommitSetsStatus(record: Snapshot, es: seq<Event>, t: nat)
    requires ValidRun(record, es) && Enabled(Exec(record, es), Commit(t))
    ensures var k, s, s' := Exec(record, es).tickets[t], Exec(record, es).service,
      Next(Exec(record, es), Commit(t)).service;
      if k.mode == "" || k.mode == "active" || k.mode == "published"
      then && s'.published == Some(k.id) && s'.staged == None && s'.publishStatus == Published
           && Lookup(s'.versions, ById(k.id)).Some? && Lookup(s'.versions, ById(k.id)).value.status == Published
      else if k.mode == "stage" || k.mode == "staged"
      then && s'.published == k.seen && s'.staged == Some(k.id) && s'.publishStatus == Staged
           && Lookup(s'.versions, ById(k.id)).Some? && Lookup(s'.versions, ById(k.id)).value.status == Staged
      else s' == s
  {
    var s := Exec(record, es);
    var k := s.tickets[t];
    RunKeepsInv(record, es);
    assert TicketOk(s.service.versions, k);
    if Target(k.mode).Some? {
      MarkedLookup(s.service.versions, k.id, Target(k.mode).value);
    }
  }

  /** A transition archives the other versions that were published or staged and leaves drafts and archived ones,
      numbers and the service record alone. */
  lemma {:induction false} CommitLeavesOthers(record: Snapshot, es: seq<Event>, t: nat, i: nat)
    requires ValidRun(record, es) && Enabled(Exec(record, es), Commit(t)) && i < |Exec(record, es).service.versions|
    requires var mode := Exec(record, es).tickets[t].mode;
      mode == "" || mode == "active" || mode == "published" || mode == "stage" || mode == "staged"
    requires Exec(record, es).service.versions[i].id != Exec(record, es).tickets[t].id
    ensures var s, s' := Exec(record, es).service, Next(Exec(record, es), Commit(t)).service;
      && s'.record == s.record && |s'.versions| == |s.versions|
      && s'.versions[i] == if s.versions[i].status == Published || s.versions[i].status == Staged
                           then s.versions[i].(status := Archived) else s.versions[i]
  {
  }

  /** A version is found by its id, and by its number, which is its place in the order of creation. */
  lemma {:induction false} LoadFinds(record: Snapshot, es: seq<Event>, t: nat, i: nat)
    requires ValidRun(record, es) && Enabled(Exec(record, es), Load(t)) && i < |Exec(record, es).service.versions|
    requires var r, v := Exec(record, es).tickets[t].ref, Exec(record, es).service.versions[i];
      r == ById(v.id) || r == ByNumber(i + 1)
    ensures var s, k := Exec(record, es), Exec(record, es).tickets[t];
      Next(s, Load(t)) == s.(tickets := s.tickets[t := Loaded(s.service.versions[i].id, k.mode, s.service.published)])
  {
    RunKeepsInv(record, es);
    var vs, r := Exec(record, es).service.versions, Exec(record, es).tickets[t].ref;
    assert Matches(vs[i], r);
    var v := Lookup(vs, r).value;
    var j :| 0 <= j < |vs| && vs[j] == v;
    assert Matches(vs[j], r);
    assert i == j;
  }

  /** A reference to no version ends the request. */
  lemma {:induction false} LoadMisses(s: System, t: nat)
    requires Inv(s) && Enabled(s, Load(t))
    requires match s.tickets[t].ref
      case ById(id) => forall i :: 0 <= i < |s.service.versions| ==> s.service.versions[i].id != id
      case ByNumber(n) => !(1 <= n <= |s.service.versions|)
    ensures Next(s, Load(t)) == s.(tickets := s.tickets - {t})
  {
    var vs, r := s.service.versions, s.tickets[t].ref;
    assert forall j :: 0 <= j < |vs| ==> !Matches(vs[j], r);
  }

  lemma {:induction false} MarkedLookup(vs: seq<Version>, id: Id, st: Status)
    requires Holds(vs, id)
    ensures Lookup(Mark(vs, id, st), ById(id)).Some? && Lookup(Mark(vs, id, st), ById(id)).value.status == st
  {
    MarkKeeps(vs, id, st, ById(id));
    var v := Lookup(Mark(vs, id, st), ById(id)).value;
    var i :| 0 <= i < |vs| && Mark(vs, id, st)[i] == v;
  }

  // ---- What requests read before their transactions ----

  /** What the request with this ticket read first: the staged pointer of a promote, the service record of a create. */
  datatype Read = Nothing | Promoted(id: Id) | Drafted(given: Snapshot, record: Snapshot)

  ghost function ReadOf(record: Snapshot, es: seq<Event>, t: nat): Read
    requires ValidRun(record, es)
  {
    if es == [] then Nothing
    else
      var init := es[..|es| - 1];
      var service := Exec(record, init).service;
      match es[|es| - 1]
      case BeginPromote(u) =>
        if u != t then ReadOf(record, init, t)
        else if service.staged.Some? then Promoted(service.staged.value) else Nothing
      case BeginCreate(u, given) => if u != t then ReadOf(record, init, t) else Drafted(given, service.record)
      case Begin(u, _, _) => if u != t then ReadOf(record, init, t) else Nothing
      case _ => ReadOf(record, init, t)
  }

  /** The ticket carries what was read, whatever commits in between. */
  ghost predicate Carries(k: Ticket, r: Read) {
    match r
    case Nothing => true
    case Promoted(id) => k == Wants(ById(id), "published") || (k.Loaded? && k.id == id && k.mode == "published")
    case Drafted(given, record) => k == Drafting(Body(record, given))
  }

  lemma {:induction false} TicketCarriesRead(record: Snapshot, es: seq<Event>, t: nat)
    requires ValidRun(record, es) && t in Exec(record, es).tickets
    ensures Carries(Exec(record, es).tickets[t], ReadOf(record, es, t))
  {
    if es != [] {
      var init, e := es[..|es| - 1], es[|es| - 1];
      if t in Exec(record, init).tickets {
        TicketCarriesRead(record, init, t);
      }
    }
  }

  /** A promote publishes the version whose id it read, archives every other live version, staged meanwhile or not, and
      leaves nothing staged. */
  lemma {:induction false} PromotePublishesWhatItRead(record: Snapshot, es: seq<Event>, t: nat)
    requires ValidRun(record, es) && Enabled(Exec(record, es), Commit(t)) && ReadOf(record, es, t).Promoted?
    ensures var s', id := Next(Exec(record, es), Commit(t)).service, ReadOf(record, es, t).id;
      && s'.published == Some(id) && s'.staged == None
      && forall i :: 0 <= i < |s'.versions| ==>
           if s'.versions[i].id == id then s'.versions[i].status == Published else !Live(s'.versions[i])
  {
    TicketCarriesRead(record, es, t);
  }

  /** This event commits a promote. */
  ghost predicate CommitsPromote(record: Snapshot, es: seq<Event>, e: Event)
    requires ValidRun(record, es)
  {
    e.Commit? && Enabled(Exec(record, es), e) && ReadOf(record, es, e.t).Promoted?
  }

  /** Every promote publishes the version that is staged when it commits. */
  ghost predicate PromotesStaged(record: Snapshot, es: seq<Event>)
    requires ValidRun(record, es)
  {
    es != [] ==>
      var init, e := es[..|es| - 1], es[|es| - 1];
      && PromotesStaged(record, init)
      && (CommitsPromote(record, init, e) ==> Exec(record, es).service.published == Exec(record, init).service.staged)
  }

  /** No promote commits after the staged pointer it read was overtaken. */
  ghost predicate NoOvertakenPromote(record: Snapshot, es: seq<Event>)
    requires ValidRun(record, es)
  {
    es != [] ==>
      var init, e := es[..|es| - 1], es[|es| - 1];
      && NoOvertakenPromote(record, init)
      && (CommitsPromote(record, init, e) ==> Exec(record, init).service.staged == Some(ReadOf(record, init, e.t).id))
  }

  lemma {:induction false} PromotesStagedExactly(record: Snapshot, es: seq<Event>)
    requires ValidRun(record, es)
    ensures PromotesStaged(record, es) <==> NoOvertakenPromote(record, es)
  {
    if es != [] {
      var init, e := es[..|es| - 1], es[|es| - 1];
      PromotesStagedExactly(record, init);
      if CommitsPromote(record, init, e) {
        PromotePublishesWhatItRead(record, init, e.t);
      }
    }
  }

  lemma {:induction false} StageOne(record: Snapshot, es: seq<Event>, t: nat, id: Id) returns (r: seq<Event>)
    requires ValidRun(record, es) && t !in Exec(record, es).tickets && Holds(Exec(record, es).service.versions, id)
    ensures ValidRun(record, r) && Exec(record, r).tickets == Exec(record, es).tickets
    ensures var s, s' := Exec(record, es).service, Exec(record, r).service;
      s'.staged == Some(id) && s'.published == s.published && s'.versions == Mark(s.versions, id, Staged)
  {
    var r1 := BeginAndLoad(record, es, t, id, "stage");
    RunOne(record, r1, Commit(t));
    r := r1 + [Commit(t)];
    assert Exec(record, es).tickets[t := Exec(record, r1).tickets[t]] - {t} == Exec(record, es).tickets;
  }

  /** Such a run from a new service: a is staged and being promoted, b is staged over it, and the promote publishes a
      and drops b. */
  lemma {:induction false} PromoteDropsLaterStaging(record: Snapshot, given: Snapshot)
    ensures exists es: seq<Event>, t ::
      && ValidRun(record, es) && Enabled(Exec(record, es), Commit(t))
      && Exec(record, es).service.staged == Some("b")
      && Next(Exec(record, es), Commit(t)).service.published == Some("a")
      && Next(Exec(record, es), Commit(t)).service.staged == None
  {
    var r0 := TwoDrafts(record, given);
    var r1 := StageOne(record, r0, 0, "a");
    MarkKeeps(Exec(record, r0).service.versions, "a", Staged, ById("a"));
    MarkKeeps(Exec(record, r0).service.versions, "a", Staged, ById("b"));
    RunOne(record, r1, BeginPromote(1));
    var r2 := r1 + [BeginPromote(1)];
    assert Exec(record, r2).tickets == map[1 := Wants(ById("a"), "published")];
    var r3 := StageOne(record, r2, 2, "b");
    MarkKeeps(Exec(record, r2).service.versions, "b", Staged, ById("a"));
    PromoteCommits(record, r3);
  }

  lemma {:induction false} PromoteCommits(record: Snapshot, es: seq<Event>)
    requires ValidRun(record, es) && Exec(record, es).tickets == map[1 := Wants(ById("a"), "published")]
    requires Holds(Exec(record, es).service.versions, "a") && Exec(record, es).service.staged == Some("b")
    ensures exists r: seq<Event>, t ::
      && ValidRun(record, r) && Enabled(Exec(record, r), Commit(t))
      && Exec(record, r).service.staged == Some("b")
      && Next(Exec(record, r), Commit(t)).service.published == Some("a")
      && Next(Exec(record, r), Commit(t)).service.staged == None
  {
    RunOne(record, es, Load(1));
    var r := es + [Load(1)];
    assert Exec(record, r).tickets[1].Loaded? && Exec(record, r).tickets[1].id == "a";
    assert Enabled(Exec(record, r), Commit(1));
  }

  /** A new version holds the snapshot given, or by default the service record as it was when the request read it; so a
      default is the current record iff that record has not changed since. */
  lemma {:induction false} VersionHoldsRecordRead(record: Snapshot, es: seq<Event>, t: nat, id: Id)
    requires ValidRun(record, es) && Enabled(Exec(record, es), Insert(t, id)) && ReadOf(record, es, t).Drafted?
    ensures var s, s', r := Exec(record, es).service, Next(Exec(record, es), Insert(t, id)).service,
      ReadOf(record, es, t);
      && s'.versions == s.versions + [Version(id, |s.versions| + 1, Draft,
                                              if r.given.requestPrefix != "" then r.given else r.record)]
      && (r.given.requestPrefix == "" ==>
          (s'.versions[|s.versions|].snapshot == s.record <==> r.record == s.record))
  {
    var s := Exec(record, es);
    TicketCarriesRead(record, es, t);
    RunKeepsInv(record, es);
    NumbersAreLength(s.service.versions);
    assert Next(s, Insert(t, id)).service == Created(s.service, id, s.tickets[t].body);
  }

  lemma {:induction false} NumbersAreLength(vs: seq<Version>)
    requires Numbered(vs)
    ensures MaxNumber(vs) == |vs|
  {
    if vs != [] {
      assert vs[|vs| - 1].number == |vs|;
    }
  }

  /** Such a run from a new service: the record is edited between the read and the insert. */
  lemma {:induction false} EditOvertakesDraft(record: Snapshot, edited: Snapshot, given: Snapshot)
    requires given.requestPrefix == "" && edited != record
    ensures exists es: seq<Event> ::
      && ValidRun(record, es) && Exec(record, es).service.record == edited
      && |Exec(record, es).service.versions| == 1 && Exec(record, es).service.versions[0].snapshot == record
  {
    assert Exec(record, []) == Fresh(record);
    RunOne(record, [], BeginCreate(0, given));
    var r1 := [] + [BeginCreate(0, given)];
    RunOne(record, r1, Edit(edited));
    var r2 := r1 + [Edit(edited)];
    RunOne(record, r2, Insert(0, "a"));
    var r3 := r2 + [Insert(0, "a")];
    assert Exec(record, r3).service.versions == [] + [Exec(record, r3).service.versions[0]];
  }
}
