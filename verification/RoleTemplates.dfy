/** Optimistic concurrency on role templates: the in-memory repository, and
    clients that read a template and later update it with the version read. */
module RoleTemplates {
  import opened Text

  datatype RoleTemplate = RoleTemplate(id: string, resourceType: string, roleKey: string,
                                       displayName: string, enabled: bool, permissions: seq<string>,
                                       version: int, activeGrants: nat)
  datatype Audit = Audit(id: string, action: string)
  datatype OutboxEvent = OutboxEvent(id: string, topic: string, status: string)
  datatype Grant = Grant(roleTemplateID: string, revoked: bool, expiresAt: Option<int>)

  datatype Repo = Repo(roles: map<string, RoleTemplate>, audits: map<string, Audit>, events: map<string, OutboxEvent>,
                       grants: map<string, Grant>)

  const PENDING := "pending"

  // ---------- the operations on values ----------

  function Key(role: RoleTemplate): string {
    role.resourceType + ":" + role.roleKey
  }

  predicate Active(grant: Grant, id: string, now: int) {
    grant.roleTemplateID == id && !grant.revoked && (grant.expiresAt == None || grant.expiresAt.value > now)
  }

  function ActiveGrants(grants: map<string, Grant>, id: string, now: int): set<string> {
    set k | k in grants && Active(grants[k], id, now)
  }

  /** What a read answers for the template stored under this key: the template,
      with the active grants added to the count that is stored with it. */
  function Reading(r: Repo, k: string, now: int): RoleTemplate
    requires k in r.roles
  {
    r.roles[k].(activeGrants := r.roles[k].activeGrants + |ActiveGrants(r.grants, r.roles[k].id, now)|)
  }

  datatype Outcome = Updated | NotFound | VersionConflict

  function SavedEvents(events: map<string, OutboxEvent>, more: seq<Option<OutboxEvent>>): map<string, OutboxEvent> {
    if more == [] then events
    else
      var before, last := SavedEvents(events, more[..|more| - 1]), more[|more| - 1];
      if last == None then before
      else before[last.value.id := if last.value.status == "" then last.value.(status := PENDING) else last.value]
  }

  function Update(r: Repo, role: RoleTemplate, expected: int, audit: Option<Audit>,
      events: seq<Option<OutboxEvent>>)
    : (Repo, Outcome)
  {
    var k := Key(role);
    if k !in r.roles || r.roles[k].id != role.id then (r, NotFound)
    else if r.roles[k].version != expected then (r, VersionConflict)
    else
      (Repo(r.roles[k := role.(version := expected + 1)],
            if audit == None then r.audits else r.audits[audit.value.id := audit.value],
            SavedEvents(r.events, events),
            r.grants),
       Updated)
  }

  // ---------- the repository ----------

  class MemoryControlPlaneRepository {
    var roles: map<string, RoleTemplate>
    var roleAudits: map<string, Audit>
    var events: map<string, OutboxEvent>
    var grants: map<string, Grant>

    constructor ()
      ensures State() == Repo(map[], map[], map[], map[])
    {
      roles, roleAudits, events, grants := map[], map[], map[], map[];
    }

    function State(): Repo
      reads this
    {
      Repo(roles, roleAudits, events, grants)
    }

    method SaveEvent(event: Option<OutboxEvent>)
      modifies this`events
      ensures events == SavedEvents(old(events), [event])
    {
      assert [event][..0] == [];
      if event.Some? {
        var e := event.value;
        if e.status == "" {
          e := e.(status := PENDING);
        }
        events := events[e.id := e];
      }
    }

    /** Some template with this id, if there is one; the map has no order. */
    method GetRoleTemplate(id: string, now: int) returns (out: Option<RoleTemplate>)
      ensures out == None <==> forall k :: k in roles ==> roles[k].id != id
      ensures out.Some? ==> exists k :: k in roles && roles[k].id == id && out.value == Reading(State(), k, now)
      ensures ActiveGrants(grants, id, now) == set g | g in grants && grants[g].roleTemplateID == id
          && !grants[g].revoked && (grants[g].expiresAt.Some? ==> grants[g].expiresAt.value > now)
    {
      var rest := roles.Keys;
      while rest != {}
        invariant rest <= roles.Keys
        invariant forall k :: k in roles && k !in rest ==> roles[k].id != id
        decreases rest
      {
        var k :| k in rest;
        if roles[k].id == id {
          var count := CountGrants(id, now);
          return Some(roles[k].(activeGrants := roles[k].activeGrants + count));
        }
        rest := rest - {k};
      }
      out := None;
    }

    method CountGrants(id: string, now: int) returns (count: nat)
      ensures count == |ActiveGrants(grants, id, now)|
    {
      count := 0;
      var rest := grants.Keys;
      ghost var counted: set<string> := {};
      while rest != {}
        invariant rest <= grants.Keys
        invariant counted == set k | k in grants && k !in rest && Active(grants[k], id, now)
        invariant count == |counted|
        decreases rest
      {
        var k :| k in rest;
        rest := rest - {k};
        if Active(grants[k], id, now) {
          counted := counted + {k};
          count := count + 1;
        }
      }
      assert counted == ActiveGrants(grants, id, now);
    }

    /** `kept` is the caller's template afterwards: it carries the new version. */
    method UpdateRoleTemplate(role: RoleTemplate, expected: int, audit: Option<Audit>, more: seq<Option<OutboxEvent>>)
      returns (outcome: Outcome, kept: RoleTemplate)
      modifies this
      ensures (State(), outcome) == Update(old(State()), role, expected, audit, more)
      ensures kept == if outcome == Updated then role.(version := expected + 1) else role
    {
      var k := Key(role);
      if k !in roles || roles[k].id != role.id { return NotFound, role; }
      if roles[k].version != expected { return VersionConflict, role; }
      roles := roles[k := role.(version := expected + 1)];
      if audit.Some? {
        roleAudits := roleAudits[audit.value.id := audit.value];
      }
      ghost var r := State();
      for i := 0 to |more|
        invariant State() == r.(events := SavedEvents(old(events), more[..i]))
      {
        assert more[..i + 1][..i] == more[..i];
        SaveEvent(more[i]);
      }
      assert more[..|more|] == more;
      outcome, kept := Updated, role.(version := expected + 1);
    }
  }

  // ---------- interleaved clients ----------

  /** What a client read, or last stored itself, and how many updates of that
      template had succeeded by then. */
  datatype Held = Held(role: RoleTemplate, after: nat)

  /** A successful update: the template it was made from, and what it stored. */
  datatype Success = Success(base: RoleTemplate, result: RoleTemplate)

  datatype System = System(repo: Repo, held: map<nat, Held>, log: seq<Success>)

  datatype Step =
    | Read(client: nat, key: string, now: int)
    | Write(client: nat, role: RoleTemplate, audit: Option<Audit>, events: seq<Option<OutboxEvent>>)
    | GrantsChange(grants: map<string, Grant>)

  /** The successes on one template, oldest first. */
  ghost function History(log: seq<Success>, id: string): seq<Success> {
    if log == [] then []
    else
      var n := |log| - 1;
      History(log[..n], id) + (if log[n].base.id == id then [log[n]] else [])
  }

  /** A client may read any stored template, and write any template with the id
      of the one it read. */
  ghost predicate Enabled(s: System, e: Step) {
    match e
    case Read(_, k, _) => k in s.repo.roles
    case Write(c, role, _, _) => c in s.held && role.id == s.held[c].role.id
    case GrantsChange(_) => true
  }

  ghost function Next(s: System, e: Step): System
    requires Enabled(s, e)
  {
    match e
    case Read(c, k, now) =>
      s.(held := s.held[c := Held(Reading(s.repo, k, now), |History(s.log, s.repo.roles[k].id)|)])
    case Write(c, role, audit, events) =>
      var base := s.held[c].role;
      var (repo, outcome) := Update(s.repo, role, base.version, audit, events);
      if outcome != Updated then s
      else
        var kept := role.(version := base.version + 1);
        System(repo, s.held[c := Held(kept, s.held[c].after + 1)], s.log + [Success(base, kept)])
    case GrantsChange(grants) => s.(repo := s.repo.(grants := grants))
  }

  ghost predicate CanRun(s: System, es: seq<Step>)
    decreases |es|
  {
    es == [] || (Enabled(s, es[0]) && CanRun(Next(s, es[0]), es[1..]))
  }

  ghost function After(s: System, es: seq<Step>): System
    requires CanRun(s, es)
    decreases |es|
  {
    if es == [] then s else After(Next(s, es[0]), es[1..])
  }

  /** Templates are stored under their own key and no two share an id. */
  ghost predicate WellFormed(roles: map<string, RoleTemplate>) {
    && (forall k :: k in roles ==> Key(roles[k]) == k)
    && (forall k, l :: k in roles && l in roles && roles[k].id == roles[l].id ==> k == l)
  }

  function Start(repo: Repo): System {
    System(repo, map[], [])
  }

  /** A template without the grant count, which reading changes. */
  function Body(role: RoleTemplate): RoleTemplate {
    role.(activeGrants := 0)
  }

  /** Each success was made from exactly what the one before it stored, the
      first from `root`, and raised the version by one; `last` came out. */
  ghost predicate Chain(root: RoleTemplate, h: seq<Success>, last: RoleTemplate) {
    if h == [] then Body(last) == Body(root)
    else
      var s := h[|h| - 1];
      && Body(last) == Body(s.result)
      && s.result.version == s.base.version + 1
      && Chain(root, h[..|h| - 1], s.base)
  }

  ghost predicate Linked(repo: Repo, s: System, k: string)
    requires k in repo.roles
  {
    && k in s.repo.roles
    && s.repo.roles[k].id == repo.roles[k].id
    && Chain(repo.roles[k], History(s.log, repo.roles[k].id), s.repo.roles[k])
  }

  /** What the client holds is at most as new as the store, and the same if as new. */
  ghost predicate HeldFits(s: System, c: nat)
    requires c in s.held
  {
    var role := s.held[c].role;
    exists k :: k in s.repo.roles && s.repo.roles[k].id == role.id && role.version <= s.repo.roles[k].version
      && (role.version == s.repo.roles[k].version ==> Body(role) == Body(s.repo.roles[k]))
      && s.repo.roles[k].version - role.version == |History(s.log, role.id)| - s.held[c].after
  }

  ghost predicate Invariant(repo: Repo, s: System) {
    && WellFormed(s.repo.roles)
    && s.repo.roles.Keys == repo.roles.Keys
    && (forall k :: k in repo.roles ==> Linked(repo, s, k))
    && (forall c :: c in s.held ==> HeldFits(s, c))
  }

  lemma HistoryAppend(log: seq<Success>, x: Success, id: string)
    ensures History(log + [x], id) == History(log, id) + (if x.base.id == id then [x] else [])
  {
    assert (log + [x])[..|log|] == log;
  }

  lemma ChainAppend(root: RoleTemplate, h: seq<Success>, x: Success, stored: RoleTemplate)
    requires Chain(root, h, stored) && Body(x.base) == Body(stored) && x.result.version == x.base.version + 1
    ensures Chain(root, h + [x], x.result)
  {
    assert (h + [x])[..|h|] == h;
  }

  /** A write goes through exactly when no update of the template has succeeded
      since its client read or stored it (the type and the key being unchanged). */
  lemma WriteOutcome(repo: Repo, s: System, e: Step)
    requires e.Write? && Enabled(s, e) && Invariant(repo, s)
    ensures var o := Update(s.repo, e.role, s.held[e.client].role.version, e.audit, e.events).1;
      && (o == NotFound <==> !exists k :: k in s.repo.roles && s.repo.roles[k].id == e.role.id && k == Key(e.role))
      && (o == Updated <==> o != NotFound && |History(s.log, e.role.id)| == s.held[e.client].after)
      && (o == Updated ==> Body(s.held[e.client].role) == Body(s.repo.roles[Key(e.role)]))
  {
    hide Key, Chain, History;
    assert HeldFits(s, e.client);
  }

  lemma HeldStays(s: System, t: System, c: nat)
    requires c in s.held && c in t.held && t.held[c] == s.held[c] && HeldFits(s, c)
    requires t.repo.roles == s.repo.roles && t.log == s.log
    ensures HeldFits(t, c)
  {
  }

  lemma {:induction false} StepKeeps(repo: Repo, s: System, e: Step)
    requires Invariant(repo, s) && Enabled(s, e)
    ensures Invariant(repo, Next(s, e))
  {
    hide HeldFits, Chain, History, Key, Active, SavedEvents;
    var t := Next(s, e);
    match e
    case Read(c, k, now) =>
      ReadFits(s, c, k, now);
      forall d | d in t.held
        ensures HeldFits(t, d)
      {
        if d != c { HeldStays(s, t, d); }
      }
    case GrantsChange(_) =>
      forall d | d in t.held
        ensures HeldFits(t, d)
      {
        HeldStays(s, t, d);
      }
    case Write(_, _, _, _) =>
      WriteKeeps(repo, s, e);
  }

  lemma ReadFits(s: System, c: nat, k: string, now: int)
    requires k in s.repo.roles
    ensures HeldFits(Next(s, Read(c, k, now)), c)
  {
    var t := Next(s, Read(c, k, now));
    assert t.held[c].role.id == s.repo.roles[k].id;
  }

  lemma WriteKeeps(repo: Repo, s: System, e: Step)
    requires e.Write? && Invariant(repo, s) && Enabled(s, e)
    ensures Invariant(repo, Next(s, e))
  {
    hide HeldFits, Chain, History, Key, SavedEvents;
    var t := Next(s, e);
    WriteOutcome(repo, s, e);
    var base := s.held[e.client].role;
    var k := Key(e.role);
    if Update(s.repo, e.role, base.version, e.audit, e.events).1 == Updated {
      var x := Success(base, e.role.(version := base.version + 1));
      KeyIgnoresVersion(e.role, base.version + 1);
      assert t.repo.roles == s.repo.roles[k := x.result] && t.log == s.log + [x];
      forall l | l in repo.roles
        ensures Linked(repo, t, l)
      {
        LinkKept(repo, s, t, l, k, x);
      }
      forall c | c in t.held
        ensures HeldFits(t, c)
      {
        if c == e.client {
          HistoryAppend(s.log, x, base.id);
          NewestHeld(t, c, k);
        } else {
          OlderHeld(s, t, c, k, x);
        }
      }
    } else {
      assert t == s;
    }
  }

  lemma LinkKept(repo: Repo, s: System, t: System, l: string, k: string, x: Success)
    requires WellFormed(s.repo.roles) && l in repo.roles && Linked(repo, s, l)
    requires k in s.repo.roles && t.repo.roles == s.repo.roles[k := x.result] && t.log == s.log + [x]
    requires x.base.id == x.result.id == s.repo.roles[k].id && x.result.version == x.base.version + 1
    requires Body(x.base) == Body(s.repo.roles[k])
    ensures Linked(repo, t, l)
  {
    hide Chain, History, Key;
    HistoryAppend(s.log, x, repo.roles[l].id);
    if l == k {
      ChainAppend(repo.roles[l], History(s.log, repo.roles[l].id), x, s.repo.roles[l]);
    } else {
      assert s.repo.roles[l].id != x.base.id;
      assert History(t.log, repo.roles[l].id) == History(s.log, repo.roles[l].id);
    }
  }

  lemma KeyIgnoresVersion(role: RoleTemplate, version: int)
    ensures Key(role.(version := version)) == Key(role)
  {
  }

  lemma NewestHeld(t: System, c: nat, k: string)
    requires c in t.held && k in t.repo.roles && t.repo.roles[k] == t.held[c].role
    requires t.held[c].after == |History(t.log, t.held[c].role.id)|
    ensures HeldFits(t, c)
  {
  }

  lemma OlderHeld(s: System, t: System, c: nat, k: string, x: Success)
    requires c in s.held && c in t.held && HeldFits(s, c) && t.held[c] == s.held[c] && t.log == s.log + [x]
    requires k in s.repo.roles && t.repo.roles == s.repo.roles[k := x.result]
    requires x.base.id == x.result.id == s.repo.roles[k].id && x.result.version == s.repo.roles[k].version + 1
    requires WellFormed(s.repo.roles)
    ensures HeldFits(t, c)
  {
    hide History, Key;
    var role := s.held[c].role;
    HistoryAppend(s.log, x, role.id);
    var l :| l in s.repo.roles && s.repo.roles[l].id == role.id && role.version <= s.repo.roles[l].version
             && (role.version == s.repo.roles[l].version ==> Body(role) == Body(s.repo.roles[l]))
             && s.repo.roles[l].version - role.version == |History(s.log, role.id)| - s.held[c].after;
    assert l in t.repo.roles && t.repo.roles[l].id == role.id;
    assert l == k <==> role.id == x.base.id;
  }

  lemma {:induction false} RunKeeps(repo: Repo, s: System, es: seq<Step>)
    requires Invariant(repo, s) && CanRun(s, es)
    ensures Invariant(repo, After(s, es))
    decreases |es|
  {
    hide Invariant, Enabled, Next;
    if es != [] {
      StepKeeps(repo, s, es[0]);
      RunKeeps(repo, Next(s, es[0]), es[1..]);
    }
  }

  /** Whatever the interleaving, the successes on each template form a chain
      from what was stored first to what is stored now. */
  lemma EveryInterleaving(repo: Repo, es: seq<Step>)
    requires WellFormed(repo.roles) && CanRun(Start(repo), es)
    ensures Invariant(repo, After(Start(repo), es))
  {
    forall k | k in repo.roles
      ensures Linked(repo, Start(repo), k)
    {
      assert History([], repo.roles[k].id) == [];
    }
    RunKeeps(repo, Start(repo), es);
  }

  lemma {:induction false} ChainVersions(root: RoleTemplate, h: seq<Success>, last: RoleTemplate)
    requires Chain(root, h, last)
    ensures last.version == root.version + |h|
    ensures forall i :: 0 <= i < |h| ==>
        h[i].base.version == root.version + i && h[i].result.version == root.version + i + 1
    ensures forall i :: 0 < i < |h| ==> Body(h[i].base) == Body(h[i - 1].result)
  {
    assert Body(last).version == last.version && Body(root).version == root.version;
    if h != [] {
      var n := |h| - 1;
      assert Body(h[n].result).version == h[n].result.version;
      ChainVersions(root, h[..n], h[n].base);
      assert h == h[..n] + [h[n]];
      assert n > 0 ==> Body(h[n].base) == Body(h[..n][n - 1].result);
    }
  }

  /** In every run: the i-th success on a template was made from version v0 + i
      and stored v0 + i + 1; it was made from exactly what the one before it
      stored; so no two successes expected the same version. */
  lemma SuccessesFormAChain(repo: Repo, es: seq<Step>, k: string)
    requires WellFormed(repo.roles) && CanRun(Start(repo), es) && k in repo.roles
    ensures var t, root := After(Start(repo), es), repo.roles[k];
      var h := History(t.log, root.id);
      && k in t.repo.roles && t.repo.roles[k].version == root.version + |h|
      && (forall i :: 0 <= i < |h| ==>
          h[i].base.version == root.version + i && h[i].result.version == root.version + i + 1)
      && (forall i :: 0 < i < |h| ==> Body(h[i].base) == Body(h[i - 1].result))
      && (h != [] ==> Body(h[0].base) == Body(root) && Body(t.repo.roles[k]) == Body(h[|h| - 1].result))
      && (forall i, j :: 0 <= i < |h| && 0 <= j < |h| && h[i].base.version == h[j].base.version ==> i == j)
  {
    hide History, Key;
    EveryInterleaving(repo, es);
    var t := After(Start(repo), es);
    assert Linked(repo, t, k);
    var h := History(t.log, repo.roles[k].id);
    ChainVersions(repo.roles[k], h, t.repo.roles[k]);
    if h != [] {
      ChainRoot(repo.roles[k], h, t.repo.roles[k]);
    }
  }

  lemma {:induction false} ChainRoot(root: RoleTemplate, h: seq<Success>, last: RoleTemplate)
    requires Chain(root, h, last) && h != []
    ensures Body(h[0].base) == Body(root)
  {
    if |h| > 1 {
      ChainRoot(root, h[..|h| - 1], h[|h| - 1].base);
    }
  }

  /** Position i holds the last event given with its id. */
  predicate LastWithId(more: seq<Option<OutboxEvent>>, i: nat) {
    && i < |more| && more[i].Some?
    && forall j :: i < j < |more| && more[j].Some? ==> more[j].value.id != more[i].value.id
  }

  /** As the outbox stores an event: without a status it is pending. */
  predicate StoredAs(e: OutboxEvent, stored: OutboxEvent) {
    stored.id == e.id && stored.topic == e.topic && stored.status == (if |e.status| == 0 then "pending" else e.status)
  }

  /** A failed update leaves templates, audits, outbox and grants as they were. A
      successful one expected the version stored, raises it by one, replaces that
      template only, stores the audit if one is given, and of the events the last
      one of each id. */
  lemma UpdateEffect(r: Repo, role: RoleTemplate, expected: int, audit: Option<Audit>, events: seq<Option<OutboxEvent>>)
    ensures var (t, o) := Update(r, role, expected, audit, events);
      if o == Updated then
        && (var k := role.resourceType + ":" + role.roleKey;
            && k in r.roles && r.roles[k].id == role.id && r.roles[k].version == expected
            && t.roles == r.roles[k := role.(version := expected + 1)])
        && t.audits == (if audit.Some? then r.audits[audit.value.id := audit.value] else r.audits)
        && t.grants == r.grants
        && (forall i: nat :: LastWithId(events, i) ==>
              events[i].value.id in t.events && StoredAs(events[i].value, t.events[events[i].value.id]))
        && (forall id :: (forall e :: Some(e) in events ==> e.id != id) ==>
              (id in t.events <==> id in r.events) && (id in r.events ==> t.events[id] == r.events[id]))
      else t == r
  {
    hide SavedEvents, StoredAs;
    forall i: nat | LastWithId(events, i)
      ensures events[i].value.id in SavedEvents(r.events, events)
      ensures StoredAs(events[i].value, SavedEvents(r.events, events)[events[i].value.id])
    {
      LastIsSaved(r.events, events, i);
    }
    forall id | forall e :: Some(e) in events ==> e.id != id
      ensures id in SavedEvents(r.events, events) <==> id in r.events
      ensures id in r.events ==> SavedEvents(r.events, events)[id] == r.events[id]
    {
      OthersStay(r.events, events, id);
    }
  }

  lemma {:induction false} LastIsSaved(before: map<string, OutboxEvent>, more: seq<Option<OutboxEvent>>, i: nat)
    requires LastWithId(more, i)
    ensures more[i].value.id in SavedEvents(before, more)
    ensures StoredAs(more[i].value, SavedEvents(before, more)[more[i].value.id])
    decreases |more|
  {
    var n := |more| - 1;
    if i < n {
      LastIsSaved(before, more[..n], i);
    }
  }

  lemma {:induction false} OthersStay(before: map<string, OutboxEvent>, more: seq<Option<OutboxEvent>>, id: string)
    requires forall e :: Some(e) in more ==> e.id != id
    ensures id in SavedEvents(before, more) <==> id in before
    ensures id in before ==> SavedEvents(before, more)[id] == before[id]
  {
    if more != [] {
      var n := |more| - 1;
      OthersStay(before, more[..n], id);
      assert more[n].Some? ==> Some(more[n].value) in more;
    }
  }

  /** Storing back what was read stores its grant count too, so the next read
      counts the active grants once more: the count is right exactly when the
      template has no active grant and was stored without a count. */
  lemma WrittenCountIsAddedAgain(r: Repo, k: string, now: int, audit: Option<Audit>, events: seq<Option<OutboxEvent>>)
    requires WellFormed(r.roles) && k in r.roles
    ensures var n, read := |ActiveGrants(r.grants, r.roles[k].id, now)|, Reading(r, k, now);
      var (t, o) := Update(r, read, read.version, audit, events);
      && o == Updated
      && Reading(t, k, now).activeGrants == r.roles[k].activeGrants + 2 * n
      && (Reading(t, k, now).activeGrants == n <==> n == 0 && r.roles[k].activeGrants == 0)
  {
    assert Key(Reading(r, k, now)) == k;
  }

  // ---------- the database repository ----------

  /** The database update selects its row by id and version and changes only the
      editable columns. The caller's template gets the next version before the
      row is looked for, so it has it even after a conflict. */
  function DBUpdate(roles: map<string, RoleTemplate>, role: RoleTemplate, expected: int)
    : (r: (map<string, RoleTemplate>, Outcome, RoleTemplate))
    requires WellFormed(roles)
  {
    var kept := role.(version := expected + 1);
    if exists k :: k in roles && roles[k].id == role.id && roles[k].version == expected then
      var k :| k in roles && roles[k].id == role.id && roles[k].version == expected;
      var row := roles[k].(displayName := role.displayName, enabled := role.enabled, permissions := role.permissions,
          version := expected + 1);
      (roles[k := row], Updated, kept)
    else (roles, VersionConflict, kept)
  }

  predicate SameColumns(role: RoleTemplate, row: RoleTemplate) {
    role.id == row.id && role.resourceType == row.resourceType && role.roleKey == row.roleKey
        && role.activeGrants == row.activeGrants
  }

  /** On a template whose fixed columns are those of a stored row, both
      repositories accept the same updates and store the same templates. */
  lemma DBMatchesMemory(r: Repo, k: string, role: RoleTemplate, expected: int, audit: Option<Audit>,
      events: seq<Option<OutboxEvent>>)
    requires WellFormed(r.roles) && k in r.roles && SameColumns(role, r.roles[k])
    ensures var (roles, o, _) := DBUpdate(r.roles, role, expected);
      var (t, memory) := Update(r, role, expected, audit, events);
      o == memory && roles == t.roles
  {
    hide SavedEvents;
    assert Key(role) == Key(r.roles[k]) == k;
  }

  /** Whatever the caller's template says, no fixed column of any row changes. */
  lemma DBKeepsFixedColumns(roles: map<string, RoleTemplate>, role: RoleTemplate, expected: int)
    requires WellFormed(roles)
    ensures var (t, o, _) := DBUpdate(roles, role, expected);
      && WellFormed(t) && t.Keys == roles.Keys
      && (forall k :: k in roles ==> SameColumns(t[k], roles[k]))
      && (forall k :: k in roles && t[k] != roles[k] ==>
            (&& o == Updated && roles[k].id == role.id && roles[k].version == expected && t[k].version == expected + 1
             && t[k].displayName == role.displayName && t[k].enabled == role.enabled
             && t[k].permissions == role.permissions))
  {
    hide Key;
    forall k | k in roles
      ensures SameKey(DBUpdate(roles, role, expected).0[k], roles[k])
    {
      KeyOfColumns(DBUpdate(roles, role, expected).0[k], roles[k]);
    }
  }

  predicate SameKey(a: RoleTemplate, b: RoleTemplate) {
    Key(a) == Key(b)
  }

  lemma KeyOfColumns(a: RoleTemplate, b: RoleTemplate)
    requires SameColumns(a, b)
    ensures SameKey(a, b)
  {
  }

  /** After a conflict the caller's template carries a version it never read: an
      immediate second try with that version overwrites the update that won,
      exactly when that one is the only one the caller missed. */
  lemma RetryAfterConflict(roles: map<string, RoleTemplate>, k: string, role: RoleTemplate, expected: int)
    requires WellFormed(roles) && k in roles && roles[k].id == role.id
    requires DBUpdate(roles, role, expected).1 == VersionConflict
    ensures var kept := DBUpdate(roles, role, expected).2;
      DBUpdate(roles, kept, kept.version).1 == Updated <==> roles[k].version == expected + 1
  {
    hide Key;
  }
}
