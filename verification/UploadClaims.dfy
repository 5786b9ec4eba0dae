/** Claim files of upload sessions, and how a process judges whether the owner of one still runs. */
module UploadClaims {
  datatype Purpose = CleanupClaim | FinalizeClaim

  datatype Claim = Claim(token: nat, pid: nat, instance: nat, purpose: Purpose)

  /** `isFinalizationClaimOwnerAlive`, for a valid claim, as process `pid` decides it from the process ids in use. */
  predicate OwnerSeemsAlive(c: Claim, pid: nat, instance: nat, running: set<nat>) {
    (c.pid == pid && c.instance == instance) || (c.pid != pid && c.pid in running)
  }
}
