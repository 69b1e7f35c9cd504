/**
 Artifact metadata and files: registration under three overlapping quotas, pruning of a session,
 deletion of unowned rows. Tables are finite maps and sets, a connection mutex makes each call one
 step, and a crash may fall between publishing a file, committing and unlinking.
 */
module Artifacts {
  import opened Domain
  import opened MiSyntax
  import opened FiniteSums

  /** A content address. Hashing is taken to be injective, so the content stands for its digest. */
  type Uri = seq<Byte>

  datatype Row = Row(session: Option<string>, size: nat, sensitivity: string)

  datatype Limits = Limits(sessionBytes: nat, ownerBytes: nat, totalBytes: nat)

  datatype Tables = Tables(
    rows: map<Uri, Row>, owners: set<(Uri, string)>, sessions: map<string, string>, files: set<Uri>)

  const EMPTY_TABLES := Tables(map[], {}, map[], {})

  datatype PutResult =
    | Stored
    | UnknownLabel
    | SizeMismatch
    | SessionQuota
    | NoOwner
    | OwnerQuota
    | GlobalQuota

  function Rank(sensitivity: string): Option<nat> {
    if sensitivity == "public" then Some(0)
    else if sensitivity == "source" then Some(1)
    else if sensitivity == "transcript" then Some(2)
    else if sensitivity == "target-io" then Some(3)
    else if sensitivity in {
      "protocol-response", "probe-observations", "target-value", "tracked-memory", "target-memory"}
    then Some(4)
    else if sensitivity == "secret" then Some(5)
    else None
  }

  function Size(u: Uri): nat {
    |u|
  }

  // ---- Queries -------------------------------------------------------------

  function SessionUris(t: Tables, s: string): set<Uri> {
    set u | u in t.rows && (u, s) in t.owners
  }

  /** The distinct artifacts of all sessions of one owner. */
  function OwnerUris(t: Tables, owner: string): set<Uri> {
    set p | p in t.owners && p.1 in t.sessions && t.sessions[p.1] == owner && p.0 in t.rows :: p.0
  }

  predicate OwnerHas(t: Tables, u: Uri, owner: string) {
    exists p | p in t.owners :: p.0 == u && p.1 in t.sessions && t.sessions[p.1] == owner
  }

  predicate Owned(t: Tables, u: Uri) {
    exists p | p in t.owners :: p.0 == u
  }

  // ---- Steps ---------------------------------------------------------------

  /** Why a registration is refused, in the order the checks are made. */
  ghost function Refusal(t: Tables, u: Uri, session: Option<string>, sensitivity: string, limits: Limits): PutResult {
    if Rank(sensitivity).None? then UnknownLabel
    else if u in t.rows && t.rows[u].size != Size(u) then SizeMismatch
    else if session.Some? && (u, session.value) !in t.owners
            && Sum(SessionUris(t, session.value), Size) + Size(u) > limits.sessionBytes then SessionQuota
    else if session.Some? && session.value !in t.sessions then NoOwner
    else if session.Some? && !OwnerHas(t, u, t.sessions[session.value])
            && Sum(OwnerUris(t, t.sessions[session.value]), Size) + Size(u) > limits.ownerBytes then OwnerQuota
    else if u !in t.rows && Sum(t.rows.Keys, Size) + Size(u) > limits.totalBytes then GlobalQuota
    else Stored
  }

  /** Labels only move upward; a stored sensitivity of unknown rank is kept. */
  function Labelled(t: Tables, u: Uri, sensitivity: string): string
    requires Rank(sensitivity).Some?
  {
    if u in t.rows
       && (Rank(t.rows[u].sensitivity).None? || Rank(t.rows[u].sensitivity).value >= Rank(sensitivity).value)
    then t.rows[u].sensitivity else sensitivity
  }

  function Registered(t: Tables, u: Uri, session: Option<string>, sensitivity: string): Tables
    requires Rank(sensitivity).Some?
  {
    var row :=
      if u in t.rows then t.rows[u].(sensitivity := Labelled(t, u, sensitivity))
      else Row(session, Size(u), sensitivity);
    t.(rows := t.rows[u := row],
       owners := if session.Some? then t.owners + {(u, session.value)} else t.owners)
  }

  /** The file is published before the metadata is committed; a crash may come in between. */
  ghost function PutStep(
    t: Tables, u: Uri, session: Option<string>, sensitivity: string, limits: Limits, crash: bool): Tables
  {
    if Refusal(t, u, session, sensitivity, limits) != Stored then t
    else
      var published := t.(files := t.files + {u});
      if crash then published else Registered(published, u, session, sensitivity)
  }

  function WithoutSession(t: Tables, s: string): set<(Uri, string)> {
    set p | p in t.owners && p.1 != s
  }

  /** Rows once attributed to a session that no session owns any more. */
  function Orphans(t: Tables, owners: set<(Uri, string)>): set<Uri> {
    set u | u in t.rows && t.rows[u].session.Some? && !(exists p | p in owners :: p.0 == u)
  }

  /** Rows go in one transaction; files follow, and a crash may leave some of them behind. */
  function PruneStep(t: Tables, s: string, committed: bool, left: set<Uri>): Tables {
    if !committed then t
    else
      var owners := WithoutSession(t, s);
      var orphans := Orphans(t, owners);
      Tables(t.rows - orphans, owners, t.sessions - {s}, t.files - (orphans - left))
  }

  /** A once-attributed row that nobody owns any more. */
  predicate Collectable(t: Tables, u: Uri) {
    u in t.rows && t.rows[u].session.Some? && !Owned(t, u)
  }

  /** Garbage collection deletes the row first and unlinks the file next; a crash may come in between. */
  function DeleteStep(t: Tables, u: Uri, crash: bool): Tables {
    if !Collectable(t, u) then t
    else t.(rows := t.rows - {u}, files := if crash then t.files else t.files - {u})
  }

  /** It also unlinks files that no row names. */
  function SweepStep(t: Tables, u: Uri): Tables {
    if u in t.rows then t else t.(files := t.files - {u})
  }

  /** The first owner of a session stays its owner. */
  function OwnStep(t: Tables, s: string, owner: string): Tables {
    if s in t.sessions then t else t.(sessions := t.sessions[s := owner])
  }

  datatype Action =
    | Put(content: Uri, session: Option<string>, sensitivity: string, crash: bool)
    | Prune(pruned: string, committed: bool, left: set<Uri>)
    | Delete(uri: Uri, crash: bool)
    | Sweep(stray: Uri)
    | Own(owned: string, owner: string)

  ghost function Step(t: Tables, limits: Limits, a: Action): Tables {
    match a
    case Put(u, session, sensitivity, crash) => PutStep(t, u, session, sensitivity, limits, crash)
    case Prune(s, committed, left) => PruneStep(t, s, committed, left)
    case Delete(u, crash) => DeleteStep(t, u, crash)
    case Sweep(u) => SweepStep(t, u)
    case Own(s, owner) => OwnStep(t, s, owner)
  }

  ghost function TablesAt(limits: Limits, actions: seq<Action>, i: nat): Tables
    requires i <= |actions|
  {
    if i == 0 then EMPTY_TABLES else Step(TablesAt(limits, actions, i - 1), limits, actions[i - 1])
  }

  // ---- What every run keeps ------------------------------------------------

  /** Every row has its published file and its true size; every owner row its row and its session. */
  ghost predicate Referential(t: Tables) {
    && (forall u :: u in t.rows ==> u in t.files && t.rows[u].size == Size(u) && Rank(t.rows[u].sensitivity).Some?)
    && (forall p :: p in t.owners ==> p.0 in t.rows && p.1 in t.sessions)
  }

  ghost predicate WithinQuotas(t: Tables, limits: Limits) {
    && (forall s :: Sum(SessionUris(t, s), Size) <= limits.sessionBytes)
    && (forall o :: Sum(OwnerUris(t, o), Size) <= limits.ownerBytes)
    && Sum(t.rows.Keys, Size) <= limits.totalBytes
  }

  lemma RegisteredReferential(t: Tables, u: Uri, session: Option<string>, sensitivity: string)
    requires Referential(t) && Rank(sensitivity).Some? && u in t.files
    requires session.Some? ==> session.value in t.sessions
    ensures Referential(Registered(t, u, session, sensitivity))
  {
    hide Rank;
  }

  lemma PruneReferential(t: Tables, s: string, committed: bool, left: set<Uri>)
    requires Referential(t)
    ensures Referential(PruneStep(t, s, committed, left))
  {
    hide Rank;
  }

  lemma StepReferential(t: Tables, limits: Limits, a: Action)
    requires Referential(t)
    ensures Referential(Step(t, limits, a))
  {
    hide Rank, Registered;
    match a
    case Put(u, session, sensitivity, crash) =>
      var published := t.(files := t.files + {u});
      assert Referential(published);
      if Refusal(t, u, session, sensitivity, limits) == Stored && !crash {
        RegisteredReferential(published, u, session, sensitivity);
      }
    case Prune(s, committed, left) => PruneReferential(t, s, committed, left);
    case _ =>
  }

  // ---- Quotas --------------------------------------------------------------

  lemma SessionUrisAfterPut(t: Tables, u: Uri, session: Option<string>, sensitivity: string, s: string)
    requires Referential(t) && Rank(sensitivity).Some?
    ensures SessionUris(Registered(t, u, session, sensitivity), s) ==
            if session == Some(s) then SessionUris(t, s) + {u} else SessionUris(t, s)
  {
    hide Rank, Labelled;
  }

  lemma OwnerUrisAfterPut(t: Tables, u: Uri, session: Option<string>, sensitivity: string, owner: string)
    requires Referential(t) && Rank(sensitivity).Some? && (session.Some? ==> session.value in t.sessions)
    ensures OwnerUris(Registered(t, u, session, sensitivity), owner) ==
            if session.Some? && t.sessions[session.value] == owner then OwnerUris(t, owner) + {u}
            else OwnerUris(t, owner)
  {
    hide Rank, Labelled;
    var n := Registered(t, u, session, sensitivity);
    if session.Some? && t.sessions[session.value] == owner {
      assert (u, session.value) in n.owners;
    }
    forall x | x in OwnerUris(t, owner)
      ensures x in OwnerUris(n, owner)
    {
      var p :| p in t.owners && p.1 in t.sessions && t.sessions[p.1] == owner && p.0 in t.rows && p.0 == x;
      assert p in n.owners;
    }
    forall x | x in OwnerUris(n, owner)
      ensures x in OwnerUris(t, owner) || (x == u && session.Some? && t.sessions[session.value] == owner)
    {
      var p :| p in n.owners && p.1 in n.sessions && n.sessions[p.1] == owner && p.0 in n.rows && p.0 == x;
      assert p in t.owners || p == (u, session.value);
    }
  }

  /** Adding one artifact to a set that may already hold it. */
  lemma SumWith(s: set<Uri>, u: Uri, limit: nat)
    requires Sum(s, Size) <= limit && (u !in s ==> Sum(s, Size) + Size(u) <= limit)
    ensures Sum(s + {u}, Size) <= limit
  {
    if u in s {
      assert s + {u} == s;
    } else {
      SumAdd(s, Size, u);
    }
  }

  lemma PutSessionQuota(
    t: Tables, u: Uri, session: Option<string>, sensitivity: string, limits: Limits, s: string)
    requires Referential(t) && WithinQuotas(t, limits)
    requires Refusal(t, u, session, sensitivity, limits) == Stored
    ensures Sum(SessionUris(Registered(t, u, session, sensitivity), s), Size) <= limits.sessionBytes
  {
    hide Rank, Registered, OwnerUris, OwnerHas;
    SessionUrisAfterPut(t, u, session, sensitivity, s);
    if session == Some(s) {
      SumWith(SessionUris(t, s), u, limits.sessionBytes);
    }
  }

  lemma PutOwnerQuota(
    t: Tables, u: Uri, session: Option<string>, sensitivity: string, limits: Limits, owner: string)
    requires Referential(t) && WithinQuotas(t, limits)
    requires Refusal(t, u, session, sensitivity, limits) == Stored
    ensures Sum(OwnerUris(Registered(t, u, session, sensitivity), owner), Size) <= limits.ownerBytes
  {
    hide Rank, Registered, SessionUris;
    OwnerUrisAfterPut(t, u, session, sensitivity, owner);
    if session.Some? && t.sessions[session.value] == owner {
      HasIsIn(t, u, owner);
      SumWith(OwnerUris(t, owner), u, limits.ownerBytes);
    }
  }

  lemma HasIsIn(t: Tables, u: Uri, owner: string)
    requires Referential(t)
    ensures OwnerHas(t, u, owner) <==> u in OwnerUris(t, owner)
  {
    hide Rank;
    if OwnerHas(t, u, owner) {
      var p :| p in t.owners && p.0 == u && p.1 in t.sessions && t.sessions[p.1] == owner;
      assert p.0 in t.rows;
    }
  }

  lemma PutKeepsQuotas(t: Tables, u: Uri, session: Option<string>, sensitivity: string, limits: Limits)
    requires Referential(t) && WithinQuotas(t, limits)
    requires Refusal(t, u, session, sensitivity, limits) == Stored
    ensures WithinQuotas(Registered(t, u, session, sensitivity), limits)
  {
    hide Rank, SessionUris, OwnerUris, OwnerHas, Referential, Labelled;
    forall s { PutSessionQuota(t, u, session, sensitivity, limits, s); }
    forall o { PutOwnerQuota(t, u, session, sensitivity, limits, o); }
    SumWith(t.rows.Keys, u, limits.totalBytes);
    assert Registered(t, u, session, sensitivity).rows.Keys == t.rows.Keys + {u};
  }

  /** Whatever only removes rows and owners keeps the quotas. */
  lemma ShrinkingKeepsQuotas(t: Tables, n: Tables, limits: Limits)
    requires WithinQuotas(t, limits) && n.owners <= t.owners && n.rows.Keys <= t.rows.Keys
    requires forall s :: s in n.sessions ==> s in t.sessions && n.sessions[s] == t.sessions[s]
    ensures WithinQuotas(n, limits)
  {
    forall s
      ensures Sum(SessionUris(n, s), Size) <= limits.sessionBytes
    {
      SumSubset(SessionUris(n, s), SessionUris(t, s), Size);
    }
    forall o
      ensures Sum(OwnerUris(n, o), Size) <= limits.ownerBytes
    {
      SumSubset(OwnerUris(n, o), OwnerUris(t, o), Size);
    }
    SumSubset(n.rows.Keys, t.rows.Keys, Size);
  }

  /** A session that has just got its owner has no artifacts yet. */
  lemma OwningKeepsQuotas(t: Tables, s: string, owner: string, limits: Limits)
    requires Referential(t) && WithinQuotas(t, limits)
    ensures WithinQuotas(OwnStep(t, s, owner), limits)
  {
    hide Rank;
    var n := OwnStep(t, s, owner);
    forall x
      ensures SessionUris(n, x) == SessionUris(t, x)
    {
    }
    forall o
      ensures OwnerUris(n, o) == OwnerUris(t, o)
    {
    }
  }

  lemma StepKeepsQuotas(t: Tables, limits: Limits, a: Action)
    requires Referential(t) && WithinQuotas(t, limits)
    ensures WithinQuotas(Step(t, limits, a), limits)
  {
    hide Rank, WithinQuotas, Referential, Registered, Orphans, WithoutSession;
    match a
    case Put(u, session, sensitivity, crash) =>
      var published := t.(files := t.files + {u});
      PublishingIsInvisible(t, u, session, sensitivity, limits);
      if Refusal(t, u, session, sensitivity, limits) == Stored && !crash {
        PutKeepsQuotas(published, u, session, sensitivity, limits);
      }
    case Prune(s, committed, left) =>
      PruneShrinks(t, s, committed, left);
      ShrinkingKeepsQuotas(t, PruneStep(t, s, committed, left), limits);
    case Delete(u, crash) => ShrinkingKeepsQuotas(t, DeleteStep(t, u, crash), limits);
    case Sweep(u) => ShrinkingKeepsQuotas(t, SweepStep(t, u), limits);
    case Own(s, owner) => OwningKeepsQuotas(t, s, owner, limits);
  }

  lemma PruneShrinks(t: Tables, s: string, committed: bool, left: set<Uri>)
    ensures var n := PruneStep(t, s, committed, left);
            && n.owners <= t.owners && n.rows.Keys <= t.rows.Keys
            && forall x :: x in n.sessions ==> x in t.sessions && n.sessions[x] == t.sessions[x]
  {
  }

  lemma PublishingIsInvisible(t: Tables, u: Uri, session: Option<string>, sensitivity: string, limits: Limits)
    requires Referential(t) && WithinQuotas(t, limits)
    ensures var n := t.(files := t.files + {u});
            && Referential(n) && WithinQuotas(n, limits)
            && Refusal(n, u, session, sensitivity, limits) == Refusal(t, u, session, sensitivity, limits)
  {
    hide Rank;
    var n := t.(files := t.files + {u});
    assert forall s :: SessionUris(n, s) == SessionUris(t, s);
    assert forall o :: OwnerUris(n, o) == OwnerUris(t, o);
  }

  lemma {:induction false} Sound(limits: Limits, actions: seq<Action>, i: nat)
    requires i <= |actions|
    ensures Referential(TablesAt(limits, actions, i)) && WithinQuotas(TablesAt(limits, actions, i), limits)
  {
    hide Step, Rank;
    if i == 0 {
      assert forall s :: SessionUris(EMPTY_TABLES, s) == {};
      assert forall o :: OwnerUris(EMPTY_TABLES, o) == {};
    } else {
      hide Referential, WithinQuotas;
      Sound(limits, actions, i - 1);
      StepReferential(TablesAt(limits, actions, i - 1), limits, actions[i - 1]);
      StepKeepsQuotas(TablesAt(limits, actions, i - 1), limits, actions[i - 1]);
    }
  }

  // ---- Sensitivity ---------------------------------------------------------

  function RankOf(t: Tables, u: Uri): nat
    requires u in t.rows
  {
    var r := Rank(t.rows[u].sensitivity);
    if r.Some? then r.value else 255
  }

  lemma SensitivityRises(t: Tables, limits: Limits, a: Action, u: Uri)
    requires u in t.rows && u in Step(t, limits, a).rows && Rank(t.rows[u].sensitivity).Some?
    ensures RankOf(t, u) <= RankOf(Step(t, limits, a), u)
  {
    hide Rank, SessionUris, OwnerUris, OwnerHas;
  }

  /** While an artifact stays stored its sensitivity never falls. */
  lemma {:induction false} SensitivityNeverFalls(limits: Limits, actions: seq<Action>, i: nat, j: nat, u: Uri)
    requires i <= j <= |actions| && forall k :: i <= k <= j ==> u in TablesAt(limits, actions, k).rows
    ensures RankOf(TablesAt(limits, actions, i), u) <= RankOf(TablesAt(limits, actions, j), u)
    decreases j
  {
    hide Step, RankOf, WithinQuotas;
    if i < j {
      SensitivityNeverFalls(limits, actions, i, j - 1, u);
      Sound(limits, actions, j - 1);
      assert u in TablesAt(limits, actions, j).rows;
      SensitivityRises(TablesAt(limits, actions, j - 1), limits, actions[j - 1], u);
    }
  }

  // ---- Pruning -------------------------------------------------------------

  /** A row survives the pruning of a session exactly when it is global or another session owns it. */
  lemma PruneKeepsExactly(t: Tables, s: string, left: set<Uri>, u: Uri)
    requires u in t.rows
    ensures u in PruneStep(t, s, true, left).rows
            <==> t.rows[u].session.None? || exists p :: p in t.owners && p.0 == u && p.1 != s
  {
    if exists p :: p in t.owners && p.0 == u && p.1 != s {
      var p :| p in t.owners && p.0 == u && p.1 != s;
      assert p in WithoutSession(t, s);
    }
  }

  /**
   Registering an artifact globally protects it only when no session had registered it first: the
   row keeps its first attribution, and with it the fate of that session.
   */
  lemma LateGlobalIsPruned(t: Tables, u: Uri, s: string, sensitivity: string, limits: Limits, left: set<Uri>)
    requires u in t.rows && t.rows[u].session.Some?
    requires Refusal(t, u, None, sensitivity, limits) == Stored
    requires forall p :: p in t.owners && p.0 == u ==> p.1 == s
    ensures u !in PruneStep(PutStep(t, u, None, sensitivity, limits, false), s, true, left).rows
  {
    hide Rank, SessionUris, OwnerUris;
    var n := PutStep(t, u, None, sensitivity, limits, false);
    PruneKeepsExactly(n, s, left, u);
  }

  /** A run from the empty store that ends with a globally registered artifact gone. */
  function LateGlobal(u: Uri, s: string, owner: string): seq<Action> {
    [Own(s, owner), Put(u, Some(s), "public", false), Put(u, None, "public", false), Prune(s, true, {})]
  }

  lemma Unfold(limits: Limits, actions: seq<Action>, i: nat, j: nat)
    requires i < |actions| && j == i + 1
    ensures TablesAt(limits, actions, j) == Step(TablesAt(limits, actions, i), limits, actions[i])
  {
    hide Step;
  }

  lemma Nothing(limits: Limits, actions: seq<Action>)
    ensures TablesAt(limits, actions, 0) == EMPTY_TABLES
  {
  }

  lemma LateGlobalRun(limits: Limits, u: Uri, s: string, owner: string)
    requires Size(u) <= limits.sessionBytes && Size(u) <= limits.ownerBytes && Size(u) <= limits.totalBytes
    ensures var actions := LateGlobal(u, s, owner);
            && u in TablesAt(limits, actions, 3).rows
            && TablesAt(limits, actions, 4).rows == map[] && TablesAt(limits, actions, 4).files == {}
  {
    hide TablesAt, Sum;
    var actions := LateGlobal(u, s, owner);
    Nothing(limits, actions);
    Unfold(limits, actions, 0, 1);
    FirstPut(limits, u, s, owner);
    Unfold(limits, actions, 1, 2);
    Unfold(limits, actions, 2, 3);
    Unfold(limits, actions, 3, 4);
  }

  lemma FirstPut(limits: Limits, u: Uri, s: string, owner: string)
    requires Size(u) <= limits.sessionBytes && Size(u) <= limits.ownerBytes && Size(u) <= limits.totalBytes
    ensures PutStep(Tables(map[], {}, map[s := owner], {}), u, Some(s), "public", limits, false)
            == Tables(map[u := Row(Some(s), Size(u), "public")], {(u, s)}, map[s := owner], {u})
  {
    var t := Tables(map[], {}, map[s := owner], {});
    assert SessionUris(t, s) == {} && OwnerUris(t, owner) == {} && t.rows.Keys == {};
    assert Sum({}, Size) == 0;
  }
}
