/** The artifact tables as the program updates them, call by call. */
module ArtifactStore {
  import opened Domain
  import opened FiniteSums
  import opened Artifacts

  class Store {
    var rows: map<Uri, Row>
    var owners: set<(Uri, string)>
    var sessions: map<string, string>
    var files: set<Uri>

    ghost function Abs(): Tables
      reads this
    {
      Tables(rows, owners, sessions, files)
    }

    constructor ()
      ensures Abs() == EMPTY_TABLES
    {
      rows, owners, sessions, files := map[], {}, map[], {};
    }

    /** The sum of the recorded sizes of some rows. */
    method SumSizes(uris: set<Uri>) returns (total: nat)
      requires forall u :: u in uris ==> u in rows && rows[u].size == Size(u)
      ensures total == Sum(uris, Size)
    {
      total := 0;
      var rest := uris;
      while rest != {}
        invariant rest <= uris && total + Sum(rest, Size) == Sum(uris, Size)
        decreases |rest|
      {
        var u :| u in rest;
        SumTake(rest, Size, u);
        total := total + rows[u].size;
        rest := rest - {u};
      }
    }

    /** A registration; with `crash` the process dies between publishing and committing. */
    method Put(bytes: Uri, session: Option<string>, sensitivity: string, limits: Limits, crash: bool)
      returns (r: PutResult)
      requires Referential(Abs())
      modifies this
      ensures r == Refusal(old(Abs()), bytes, session, sensitivity, limits)
      ensures Abs() == PutStep(old(Abs()), bytes, session, sensitivity, limits, crash)
    {
      hide Rank;
      if Rank(sensitivity).None? {
        return UnknownLabel;
      }
      if bytes in rows && rows[bytes].size != Size(bytes) {
        return SizeMismatch;
      }
      if session.Some? {
        r := CheckSession(bytes, session.value, limits);
        if r != Stored {
          return;
        }
      }
      if bytes !in rows {
        var used := SumSizes(rows.Keys);
        if used + Size(bytes) > limits.totalBytes {
          return GlobalQuota;
        }
      }
      files := files + {bytes};
      r := Stored;
      if crash {
        return;
      }
      Commit(bytes, session, sensitivity);
    }

    method CheckSession(bytes: Uri, session: string, limits: Limits) returns (r: PutResult)
      requires Referential(Abs())
      ensures r == if (bytes, session) !in owners
                      && Sum(SessionUris(Abs(), session), Size) + Size(bytes) > limits.sessionBytes
                   then SessionQuota
                   else if session !in sessions then NoOwner
                   else if !OwnerHas(Abs(), bytes, sessions[session])
                           && Sum(OwnerUris(Abs(), sessions[session]), Size) + Size(bytes) > limits.ownerBytes
                   then OwnerQuota
                   else Stored
    {
      hide Rank;
      if (bytes, session) !in owners {
        var used := SumSizes(set u | u in rows && (u, session) in owners);
        if used + Size(bytes) > limits.sessionBytes {
          return SessionQuota;
        }
      }
      if session !in sessions {
        return NoOwner;
      }
      var owner := sessions[session];
      var has := exists p | p in owners :: p.0 == bytes && p.1 in sessions && sessions[p.1] == owner;
      if !has {
        var used := SumSizes(
          set p | p in owners && p.1 in sessions && sessions[p.1] == owner && p.0 in rows :: p.0);
        if used + Size(bytes) > limits.ownerBytes {
          return OwnerQuota;
        }
      }
      return Stored;
    }

    method Commit(bytes: Uri, session: Option<string>, sensitivity: string)
      requires Rank(sensitivity).Some?
      modifies this
      ensures Abs() == Registered(old(Abs()), bytes, session, sensitivity)
    {
      hide Rank;
      if bytes in rows {
        var existing := rows[bytes];
        var kept := Rank(existing.sensitivity).None?
                    || Rank(existing.sensitivity).value >= Rank(sensitivity).value;
        rows := rows[bytes := existing.(sensitivity := if kept then existing.sensitivity else sensitivity)];
      } else {
        rows := rows[bytes := Row(session, Size(bytes), sensitivity)];
      }
      if session.Some? {
        owners := owners + {(bytes, session.value)};
      }
    }

    /** Pruning; `committed` is whether the transaction lived, `budget` how many files it could unlink. */
    method Prune(session: string, committed: bool, budget: nat) returns (ghost left: set<Uri>)
      modifies this
      ensures Abs() == PruneStep(old(Abs()), session, committed, left)
    {
      left := {};
      if !committed {
        return;
      }
      var remaining := set p | p in owners && p.1 != session;
      var orphans := set u | u in rows && rows[u].session.Some? && !(exists p | p in remaining :: p.0 == u);
      assert orphans == Orphans(Abs(), WithoutSession(Abs(), session));
      owners, sessions, rows := remaining, sessions - {session}, rows - orphans;
      left := Unlink(orphans, budget);
    }

    /** Files go one by one, outside the transaction. */
    method Unlink(orphans: set<Uri>, budget: nat) returns (ghost left: set<Uri>)
      modifies this`files
      ensures left <= orphans && files == old(files) - (orphans - left)
    {
      var rest, spent := orphans, 0;
      while rest != {} && spent < budget
        invariant rest <= orphans && files == old(files) - (orphans - rest)
        decreases |rest|
      {
        var u :| u in rest;
        files := files - {u};
        rest := rest - {u};
        spent := spent + 1;
      }
      left := rest;
    }

    method DeleteUnowned(uri: Uri) returns (deleted: bool)
      modifies this
      ensures Abs() == DeleteStep(old(Abs()), uri, true)
      ensures deleted <==> uri in old(rows) && uri !in rows
    {
      deleted := uri in rows && rows[uri].session.Some? && !(exists p | p in owners :: p.0 == uri);
      if deleted {
        rows := rows - {uri};
      }
    }

    /** One garbage collection over a scan of unowned rows and of files without a row. */
    method Collect(unowned: seq<Uri>, untracked: seq<Uri>) returns (removed: nat)
      requires Referential(Abs())
      requires forall i :: 0 <= i < |untracked| ==> untracked[i] !in rows
      modifies this
      ensures Referential(Abs()) && owners == old(owners) && sessions == old(sessions)
      ensures forall u :: u in rows <==> u in old(rows) && !(u in unowned && Collectable(old(Abs()), u))
      ensures forall u :: u in rows ==> rows[u] == old(rows)[u]
      ensures forall u :: u in files <==>
                u in old(files) && u !in untracked && !(u in unowned && Collectable(old(Abs()), u))
    {
      hide Rank;
      removed := 0;
      for i := 0 to |unowned|
        invariant Referential(Abs()) && owners == old(owners) && sessions == old(sessions)
        invariant forall u :: u in rows <==> u in old(rows) && !(u in unowned[..i] && Collectable(old(Abs()), u))
        invariant forall u :: u in rows ==> rows[u] == old(rows)[u]
        invariant forall u :: u in files <==> u in old(files) && !(u in unowned[..i] && Collectable(old(Abs()), u))
      {
        var uri := unowned[i];
        assert forall u :: u in unowned[..i + 1] <==> u in unowned[..i] || u == uri;
        var deleted := DeleteUnowned(uri);
        if deleted {
          files := files - {uri};
          removed := removed + 1;
        }
      }
      assert unowned[..|unowned|] == unowned;
      ghost var left := files;
      for i := 0 to |untracked|
        invariant rows.Keys <= old(rows).Keys && Referential(Abs())
        invariant owners == old(owners) && sessions == old(sessions)
        invariant forall u :: u in rows <==> u in old(rows) && !(u in unowned && Collectable(old(Abs()), u))
        invariant forall u :: u in rows ==> rows[u] == old(rows)[u]
        invariant forall u :: u in files <==> u in left && u !in untracked[..i]
      {
        assert forall u :: u in untracked[..i + 1] <==> u in untracked[..i] || u == untracked[i];
        files := files - {untracked[i]};
        removed := removed + 1;
      }
      assert untracked[..|untracked|] == untracked;
    }

    method SetSessionOwner(session: string, owner: string)
      modifies this
      ensures Abs() == OwnStep(old(Abs()), session, owner)
    {
      if session !in sessions {
        sessions := sessions[session := owner];
      }
    }
  }
}
