/** The static table that sorts CloudFormation resource status strings into the
    four broad classes used to style stack events. */
module StackStatus {

  // The status classes, numbered in declaration order as by Go's `iota`.
  // Unknown is 0, the value a Go map lookup yields for a missing key.
  const Unknown: int := 0
  const Ok: int := 1
  const Progress: int := 2
  const Fail: int := 3

  const StatusMap: map<string, int> := map[
    "CREATE_COMPLETE" := Ok,
    "CREATE_IN_PROGRESS" := Progress,
    "CREATE_FAILED" := Fail,
    "DELETE_COMPLETE" := Ok,
    "DELETE_FAILED" := Fail,
    "DELETE_IN_PROGRESS" := Progress,
    "ROLLBACK_COMPLETE" := Ok,
    "ROLLBACK_FAILED" := Fail,
    "ROLLBACK_IN_PROGRESS" := Progress,
    "UPDATE_COMPLETE" := Ok,
    "UPDATE_COMPLETE_CLEANUP_IN_PROGRESS" := Progress,
    "UPDATE_IN_PROGRESS" := Progress,
    "UPDATE_ROLLBACK_COMPLETE" := Ok,
    "UPDATE_ROLLBACK_COMPLETE_CLEANUP_IN_PROGRESS" := Progress,
    "UPDATE_ROLLBACK_FAILED" := Fail,
    "UPDATE_ROLLBACK_IN_PROGRESS" := Progress,
    "UPDATE_FAILED" := Fail,
    "IMPORT_IN_PROGRESS" := Progress,
    "IMPORT_COMPLETE" := Ok,
    "IMPORT_ROLLBACK_IN_PROGRESS" := Progress,
    "IMPORT_ROLLBACK_FAILED" := Fail,
    "IMPORT_ROLLBACK_COMPLETE" := Ok
  ]

  /** The broad class of a status string; strings outside the table are Unknown. */
  function StatusType(s: string): (r: int)
    ensures r == Unknown || r == Ok || r == Progress || r == Fail
    ensures r != Unknown <==> s in StatusMap
  {
    if s in StatusMap then StatusMap[s] else Unknown
  }

  predicate EndsWith(s: string, suffix: string) {
    |suffix| <= |s| && s[|s| - |suffix|..] == suffix
  }

  /** The class a CloudFormation status name announces by its final word. */
  function SuffixClass(s: string): int {
    if EndsWith(s, "_IN_PROGRESS") then Progress
    else if EndsWith(s, "_FAILED") then Fail
    else if EndsWith(s, "_COMPLETE") then Ok
    else Unknown
  }


  /** No table entry is Unknown: a string is classified Unknown exactly when it is
      missing from the table. */
  lemma NoEntryUnknown()
    ensures forall k :: k in StatusMap ==> StatusMap[k] != Unknown
  {
  }

  /** The lookup is exact and case-sensitive: every key starts with an upper-case
      letter, so a string starting with a lower-case letter is Unknown. */
  lemma LowerCaseInitialUnknown(s: string)
    requires |s| > 0 && 'a' <= s[0] <= 'z'
    ensures StatusType(s) == Unknown
  {
  }

  /** The lower-cased spelling of a listed status is Unknown. */
  lemma LowerCaseVariantUnknown()
    ensures StatusType("create_complete") == Unknown
    ensures StatusType("CREATE_COMPLETE") == Ok
  {
  }

  // Every listed status string has its listed class, split by family of names.
  lemma CreateEntries()
    ensures StatusType("CREATE_COMPLETE") == Ok
    ensures StatusType("CREATE_IN_PROGRESS") == Progress
    ensures StatusType("CREATE_FAILED") == Fail
  {
  }

  lemma DeleteEntries()
    ensures StatusType("DELETE_COMPLETE") == Ok
    ensures StatusType("DELETE_FAILED") == Fail
    ensures StatusType("DELETE_IN_PROGRESS") == Progress
  {
  }

  lemma RollbackEntries()
    ensures StatusType("ROLLBACK_COMPLETE") == Ok
    ensures StatusType("ROLLBACK_FAILED") == Fail
    ensures StatusType("ROLLBACK_IN_PROGRESS") == Progress
  {
  }

  lemma UpdateEntries()
    ensures StatusType("UPDATE_COMPLETE") == Ok
    ensures StatusType("UPDATE_COMPLETE_CLEANUP_IN_PROGRESS") == Progress
    ensures StatusType("UPDATE_IN_PROGRESS") == Progress
    ensures StatusType("UPDATE_FAILED") == Fail
  {
  }

  lemma UpdateRollbackCompleteEntries()
    ensures StatusType("UPDATE_ROLLBACK_COMPLETE") == Ok
    ensures StatusType("UPDATE_ROLLBACK_COMPLETE_CLEANUP_IN_PROGRESS") == Progress
  {
  }

  lemma UpdateRollbackEntries()
    ensures StatusType("UPDATE_ROLLBACK_FAILED") == Fail
    ensures StatusType("UPDATE_ROLLBACK_IN_PROGRESS") == Progress
  {
  }

  lemma ImportEntries()
    ensures StatusType("IMPORT_IN_PROGRESS") == Progress
    ensures StatusType("IMPORT_COMPLETE") == Ok
  {
  }

  lemma ImportRollbackEntries()
    ensures StatusType("IMPORT_ROLLBACK_IN_PROGRESS") == Progress
    ensures StatusType("IMPORT_ROLLBACK_FAILED") == Fail
    ensures StatusType("IMPORT_ROLLBACK_COMPLETE") == Ok
  {
  }

  // One name at a time, the suffix rule applied to each listed name.

  lemma SuffixOfCreateComplete()
    ensures SuffixClass("CREATE_COMPLETE") == Ok
  {
  }

  lemma SuffixOfCreateInProgress()
    ensures SuffixClass("CREATE_IN_PROGRESS") == Progress
  {
  }

  lemma SuffixOfCreateFailed()
    ensures SuffixClass("CREATE_FAILED") == Fail
  {
  }

  lemma SuffixOfDeleteComplete()
    ensures SuffixClass("DELETE_COMPLETE") == Ok
  {
  }

  lemma SuffixOfDeleteFailed()
    ensures SuffixClass("DELETE_FAILED") == Fail
  {
  }

  lemma SuffixOfDeleteInProgress()
    ensures SuffixClass("DELETE_IN_PROGRESS") == Progress
  {
  }

  lemma SuffixOfRollbackComplete()
    ensures SuffixClass("ROLLBACK_COMPLETE") == Ok
  {
  }

  lemma SuffixOfRollbackFailed()
    ensures SuffixClass("ROLLBACK_FAILED") == Fail
  {
  }

  lemma SuffixOfRollbackInProgress()
    ensures SuffixClass("ROLLBACK_IN_PROGRESS") == Progress
  {
  }

  lemma SuffixOfUpdateComplete()
    ensures SuffixClass("UPDATE_COMPLETE") == Ok
  {
  }

  lemma SuffixOfUpdateCompleteCleanupInProgress()
    ensures SuffixClass("UPDATE_COMPLETE_CLEANUP_IN_PROGRESS") == Progress
  {
  }

  lemma SuffixOfUpdateInProgress()
    ensures SuffixClass("UPDATE_IN_PROGRESS") == Progress
  {
  }

  lemma SuffixOfUpdateFailed()
    ensures SuffixClass("UPDATE_FAILED") == Fail
  {
  }

  lemma SuffixOfUpdateRollbackComplete()
    ensures SuffixClass("UPDATE_ROLLBACK_COMPLETE") == Ok
  {
  }

  lemma SuffixOfUpdateRollbackCompleteCleanupInProgress()
    ensures SuffixClass("UPDATE_ROLLBACK_COMPLETE_CLEANUP_IN_PROGRESS") == Progress
  {
  }

  lemma SuffixOfUpdateRollbackFailed()
    ensures SuffixClass("UPDATE_ROLLBACK_FAILED") == Fail
  {
  }

  lemma SuffixOfUpdateRollbackInProgress()
    ensures SuffixClass("UPDATE_ROLLBACK_IN_PROGRESS") == Progress
  {
  }

  lemma SuffixOfImportInProgress()
    ensures SuffixClass("IMPORT_IN_PROGRESS") == Progress
  {
  }

  lemma SuffixOfImportComplete()
    ensures SuffixClass("IMPORT_COMPLETE") == Ok
  {
  }

  lemma SuffixOfImportRollbackInProgress()
    ensures SuffixClass("IMPORT_ROLLBACK_IN_PROGRESS") == Progress
  {
  }

  lemma SuffixOfImportRollbackFailed()
    ensures SuffixClass("IMPORT_ROLLBACK_FAILED") == Fail
  {
  }

  lemma SuffixOfImportRollbackComplete()
    ensures SuffixClass("IMPORT_ROLLBACK_COMPLETE") == Ok
  {
  }

  // The class each listed name announces by its suffix, split by family of
  // names to keep each proof small.

  lemma CreateSuffixes()
    ensures SuffixClass("CREATE_COMPLETE") == Ok
    ensures SuffixClass("CREATE_IN_PROGRESS") == Progress
    ensures SuffixClass("CREATE_FAILED") == Fail
  {
    SuffixOfCreateComplete();
    SuffixOfCreateInProgress();
    SuffixOfCreateFailed();
  }

  lemma DeleteSuffixes()
    ensures SuffixClass("DELETE_COMPLETE") == Ok
    ensures SuffixClass("DELETE_FAILED") == Fail
    ensures SuffixClass("DELETE_IN_PROGRESS") == Progress
  {
    SuffixOfDeleteComplete();
    SuffixOfDeleteFailed();
    SuffixOfDeleteInProgress();
  }

  lemma RollbackSuffixes()
    ensures SuffixClass("ROLLBACK_COMPLETE") == Ok
    ensures SuffixClass("ROLLBACK_FAILED") == Fail
    ensures SuffixClass("ROLLBACK_IN_PROGRESS") == Progress
  {
    SuffixOfRollbackComplete();
    SuffixOfRollbackFailed();
    SuffixOfRollbackInProgress();
  }

  lemma UpdateSuffixes()
    ensures SuffixClass("UPDATE_COMPLETE") == Ok
    ensures SuffixClass("UPDATE_COMPLETE_CLEANUP_IN_PROGRESS") == Progress
    ensures SuffixClass("UPDATE_IN_PROGRESS") == Progress
    ensures SuffixClass("UPDATE_FAILED") == Fail
  {
    SuffixOfUpdateComplete();
    SuffixOfUpdateCompleteCleanupInProgress();
    SuffixOfUpdateInProgress();
    SuffixOfUpdateFailed();
  }

  lemma UpdateRollbackCompleteSuffixes()
    ensures SuffixClass("UPDATE_ROLLBACK_COMPLETE") == Ok
    ensures SuffixClass("UPDATE_ROLLBACK_COMPLETE_CLEANUP_IN_PROGRESS") == Progress
  {
    SuffixOfUpdateRollbackComplete();
    SuffixOfUpdateRollbackCompleteCleanupInProgress();
  }

  lemma UpdateRollbackSuffixes()
    ensures SuffixClass("UPDATE_ROLLBACK_FAILED") == Fail
    ensures SuffixClass("UPDATE_ROLLBACK_IN_PROGRESS") == Progress
  {
    SuffixOfUpdateRollbackFailed();
    SuffixOfUpdateRollbackInProgress();
  }

  lemma ImportSuffixes()
    ensures SuffixClass("IMPORT_IN_PROGRESS") == Progress
    ensures SuffixClass("IMPORT_COMPLETE") == Ok
  {
    SuffixOfImportInProgress();
    SuffixOfImportComplete();
  }

  lemma ImportRollbackSuffixes()
    ensures SuffixClass("IMPORT_ROLLBACK_IN_PROGRESS") == Progress
    ensures SuffixClass("IMPORT_ROLLBACK_FAILED") == Fail
    ensures SuffixClass("IMPORT_ROLLBACK_COMPLETE") == Ok
  {
    SuffixOfImportRollbackInProgress();
    SuffixOfImportRollbackFailed();
    SuffixOfImportRollbackComplete();
  }

  /** The table agrees, key by key, with the suffix rule: every listed name ending
      in `_COMPLETE` is Ok, in `_FAILED` is Fail and in `_IN_PROGRESS` is Progress. */
  lemma TableFollowsSuffixes()
    ensures StatusType("CREATE_COMPLETE") == SuffixClass("CREATE_COMPLETE")
    ensures StatusType("CREATE_IN_PROGRESS") == SuffixClass("CREATE_IN_PROGRESS")
    ensures StatusType("CREATE_FAILED") == SuffixClass("CREATE_FAILED")
    ensures StatusType("DELETE_COMPLETE") == SuffixClass("DELETE_COMPLETE")
    ensures StatusType("DELETE_FAILED") == SuffixClass("DELETE_FAILED")
    ensures StatusType("DELETE_IN_PROGRESS") == SuffixClass("DELETE_IN_PROGRESS")
    ensures StatusType("ROLLBACK_COMPLETE") == SuffixClass("ROLLBACK_COMPLETE")
    ensures StatusType("ROLLBACK_FAILED") == SuffixClass("ROLLBACK_FAILED")
    ensures StatusType("ROLLBACK_IN_PROGRESS") == SuffixClass("ROLLBACK_IN_PROGRESS")
    ensures StatusType("UPDATE_COMPLETE") == SuffixClass("UPDATE_COMPLETE")
    ensures StatusType("UPDATE_COMPLETE_CLEANUP_IN_PROGRESS") == SuffixClass("UPDATE_COMPLETE_CLEANUP_IN_PROGRESS")
    ensures StatusType("UPDATE_IN_PROGRESS") == SuffixClass("UPDATE_IN_PROGRESS")
    ensures StatusType("UPDATE_ROLLBACK_COMPLETE") == SuffixClass("UPDATE_ROLLBACK_COMPLETE")
    ensures StatusType("UPDATE_ROLLBACK_COMPLETE_CLEANUP_IN_PROGRESS") == SuffixClass("UPDATE_ROLLBACK_COMPLETE_CLEANUP_IN_PROGRESS")
    ensures StatusType("UPDATE_ROLLBACK_FAILED") == SuffixClass("UPDATE_ROLLBACK_FAILED")
    ensures StatusType("UPDATE_ROLLBACK_IN_PROGRESS") == SuffixClass("UPDATE_ROLLBACK_IN_PROGRESS")
    ensures StatusType("UPDATE_FAILED") == SuffixClass("UPDATE_FAILED")
    ensures StatusType("IMPORT_IN_PROGRESS") == SuffixClass("IMPORT_IN_PROGRESS")
    ensures StatusType("IMPORT_COMPLETE") == SuffixClass("IMPORT_COMPLETE")
    ensures StatusType("IMPORT_ROLLBACK_IN_PROGRESS") == SuffixClass("IMPORT_ROLLBACK_IN_PROGRESS")
    ensures StatusType("IMPORT_ROLLBACK_FAILED") == SuffixClass("IMPORT_ROLLBACK_FAILED")
    ensures StatusType("IMPORT_ROLLBACK_COMPLETE") == SuffixClass("IMPORT_ROLLBACK_COMPLETE")
  {
    CreateEntries();
    DeleteEntries();
    RollbackEntries();
    UpdateEntries();
    UpdateRollbackCompleteEntries();
    UpdateRollbackEntries();
    ImportEntries();
    ImportRollbackEntries();
    CreateSuffixes();
    DeleteSuffixes();
    RollbackSuffixes();
    UpdateSuffixes();
    UpdateRollbackCompleteSuffixes();
    UpdateRollbackSuffixes();
    ImportSuffixes();
    ImportRollbackSuffixes();
  }
}
