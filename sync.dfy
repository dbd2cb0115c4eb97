/** The sync service's decision logic (src/services/SyncService.js): the
    conflicts and the single recommendation `analyzeConflicts` appends to
    a data-state record, and the shape `getSyncStatus` gives its result. */
module Sync {
  import opened Wrappers
  import opened Text

  /** What the state check found in the browser's local storage. */
  datatype LocalSummary = LocalSummary(hasData: bool, players: nat, matches: nat)

  /** What the state check found in the blob store. */
  datatype BlobSummary = BlobSummary(hasData: bool, players: nat, matches: nat, leagues: nat, apiAvailable: bool)

  datatype Conflict = Conflict(kind: string, message: string)

  datatype Priority = Low | High | Critical

  datatype Recommendation = Recommendation(action: string, message: string, priority: Priority)

  /** The 'players' conflict, with both counts in its message. */
  function PlayersConflict(local: LocalSummary, blob: BlobSummary): Conflict
  {
    Conflict("players", "Player count mismatch: localStorage(" + NatToString(local.players) +
                        ") vs Vercel Blob(" + NatToString(blob.players) + ")")
  }

  /** The 'matches' conflict, with both counts in its message. */
  function MatchesConflict(local: LocalSummary, blob: BlobSummary): Conflict
  {
    Conflict("matches", "Match count mismatch: localStorage(" + NatToString(local.matches) +
                        ") vs Vercel Blob(" + NatToString(blob.matches) + ")")
  }

  /** The conflicts `analyzeConflicts` records: only when both stores
      hold data, one per count that differs, players first. */
  function NewConflicts(local: LocalSummary, blob: BlobSummary): (r: seq<Conflict>)
    ensures PlayersConflict(local, blob) in r <==> local.hasData && blob.hasData && local.players != blob.players
    ensures MatchesConflict(local, blob) in r <==> local.hasData && blob.hasData && local.matches != blob.matches
    ensures forall c :: c in r ==> c == PlayersConflict(local, blob) || c == MatchesConflict(local, blob)
    ensures |r| <= 2 && (r != [] ==> local.hasData && blob.hasData)
  {
    if local.hasData && blob.hasData then
      (if local.players != blob.players then [PlayersConflict(local, blob)] else []) +
      (if local.matches != blob.matches then [MatchesConflict(local, blob)] else [])
    else []
  }

  const MigrateToBlob := Recommendation("migrate_to_blob", "Migrate localStorage data to Vercel Blob", High)
  const ClearLegacy := Recommendation("clear_legacy", "Clear any remaining legacy data", Low)
  const ResolveConflicts := Recommendation("resolve_conflicts", "Resolve data conflicts between storage systems", High)
  const FixApi := Recommendation("fix_api", "Start Vercel dev server to enable Blob API", Critical)

  /** The recommendation `analyzeConflicts` appends, the first case that
      applies: migrate when only local storage has data and the blob API
      answers; clear legacy data when only the blob store has data;
      resolve conflicts when both have data and a conflict is recorded;
      fix the API when it does not answer; otherwise none. */
  function Recommend(local: LocalSummary, blob: BlobSummary, anyConflict: bool): (r: Option<Recommendation>)
    ensures r == Some(MigrateToBlob) <==> local.hasData && !blob.hasData && blob.apiAvailable
    ensures r == Some(ClearLegacy) <==> !local.hasData && blob.hasData
    ensures r == Some(ResolveConflicts) <==> local.hasData && blob.hasData && anyConflict
    ensures r == Some(FixApi) <==> !blob.apiAvailable && !(!local.hasData && blob.hasData) &&
                                   !(local.hasData && blob.hasData && anyConflict)
    ensures r.None? <==> blob.apiAvailable && local.hasData == blob.hasData && !(local.hasData && anyConflict)
  {
    if local.hasData && !blob.hasData && blob.apiAvailable then Some(MigrateToBlob)
    else if !local.hasData && blob.hasData then Some(ClearLegacy)
    else if local.hasData && blob.hasData && anyConflict then Some(ResolveConflicts)
    else if !blob.apiAvailable then Some(FixApi)
    else None
  }

  /** The appended recommendation as a list of zero or one. */
  function AsList(o: Option<Recommendation>): (r: seq<Recommendation>)
    ensures o.None? ==> r == []
    ensures o.Some? ==> r == [o.value]
  {
    if o.Some? then [o.value] else []
  }

  /** A value copy of the data-state record. */
  datatype Snapshot = Snapshot(local: LocalSummary, blob: BlobSummary,
                               conflicts: seq<Conflict>, recommendations: seq<Recommendation>)

  /** The data-state record `checkDataState` builds and `analyzeConflicts`
      completes in place. */
  class DataState {
    var local: LocalSummary
    var blob: BlobSummary
    var conflicts: seq<Conflict>
    var recommendations: seq<Recommendation>

    /** A fresh record: both summaries, no conflicts, no recommendations. */
    constructor (local: LocalSummary, blob: BlobSummary)
      ensures this.local == local && this.blob == blob
      ensures conflicts == [] && recommendations == []
    {
      this.local := local;
      this.blob := blob;
      conflicts := [];
      recommendations := [];
    }

    function Value(): (s: Snapshot)
      reads this
      ensures s.local == local && s.blob == blob
      ensures s.conflicts == conflicts && s.recommendations == recommendations
    {
      Snapshot(local, blob, conflicts, recommendations)
    }

    /** `analyzeConflicts`: appends the conflicts, then at most one
        recommendation, chosen with every conflict recorded so far in
        view; the summaries are left as they were. */
    method AnalyzeConflicts()
      modifies this
      ensures local == old(local) && blob == old(blob)
      ensures conflicts == old(conflicts) + NewConflicts(local, blob)
      ensures recommendations == old(recommendations) + AsList(Recommend(local, blob, |conflicts| > 0))
    {
      if local.hasData && blob.hasData {
        if local.players != blob.players {
          conflicts := conflicts + [PlayersConflict(local, blob)];
        }
        if local.matches != blob.matches {
          conflicts := conflicts + [MatchesConflict(local, blob)];
        }
      }
      if local.hasData && !blob.hasData && blob.apiAvailable {
        recommendations := recommendations + [MigrateToBlob];
      } else if !local.hasData && blob.hasData {
        recommendations := recommendations + [ClearLegacy];
      } else if local.hasData && blob.hasData && |conflicts| > 0 {
        recommendations := recommendations + [ResolveConflicts];
      } else if !blob.apiAvailable {
        recommendations := recommendations + [FixApi];
      }
    }
  }

  /** On a fresh record, conflicts are resolved exactly when both stores
      hold data and a count differs. */
  lemma {:induction false} FreshStateResolves(local: LocalSummary, blob: BlobSummary)
    ensures Recommend(local, blob, |NewConflicts(local, blob)| > 0) == Some(ResolveConflicts) <==>
      local.hasData && blob.hasData && (local.players != blob.players || local.matches != blob.matches)
  {
    if local.hasData && blob.hasData && local.players != blob.players {
      assert PlayersConflict(local, blob) in NewConflicts(local, blob);
    }
    if local.hasData && blob.hasData && local.matches != blob.matches {
      assert MatchesConflict(local, blob) in NewConflicts(local, blob);
    }
  }

  /** What `getSyncStatus` returns. */
  datatype SyncStatus = SyncStatus(isInSync: bool, conflicts: seq<Conflict>,
                                   recommendations: seq<Recommendation>, state: Option<Snapshot>)

  const CheckSetup := Recommendation("check_setup", "Check system setup and try again", Critical)

  /** `getSyncStatus` over the outcome of the state check: in sync exactly
      when no conflict was recorded; a failed check yields one 'error'
      conflict carrying its message and one critical 'check_setup'
      recommendation, and no state. */
  function GetSyncStatus(check: Result<Snapshot, string>): (r: SyncStatus)
    ensures r.isInSync <==> check.Ok? && check.value.conflicts == []
    ensures check.Ok? ==> r.conflicts == check.value.conflicts &&
                          r.recommendations == check.value.recommendations && r.state == Some(check.value)
    ensures check.Err? ==> r.conflicts == [Conflict("error", check.error)] &&
                           r.recommendations == [CheckSetup] && r.state.None?
  {
    match check
    case Ok(state) => SyncStatus(|state.conflicts| == 0, state.conflicts, state.recommendations, Some(state))
    case Err(message) => SyncStatus(false, [Conflict("error", message)], [CheckSetup], None)
  }
}
