/** InMemoryJobLeaseStore (apps/automation-worker/src/transport/lease.ts:14-52): a map of
    lease records that the handles given out renew and release in place. */
module JobLeases {
  import opened Prelude

  class LeaseRecord {
    const token: nat
    const fence: int
    var expiresAt: int

    constructor (token: nat, fence: int, expiresAt: int)
      ensures this.token == token && this.fence == fence && this.expiresAt == expiresAt
    {
      this.token := token;
      this.fence := fence;
      this.expiresAt := expiresAt;
    }
  }

  /** What a caller holds: its closure keeps the token and the very record it created. */
  class JobLease {
    const jobId: string
    const fence: int
    const ttlMs: int
    const record: LeaseRecord
    var released: bool

    constructor (jobId: string, fence: int, ttlMs: int, record: LeaseRecord)
      ensures this.jobId == jobId && this.fence == fence && this.ttlMs == ttlMs && this.record == record && !released
    {
      this.jobId := jobId;
      this.fence := fence;
      this.ttlMs := ttlMs;
      this.record := record;
      this.released := false;
    }
  }

  class InMemoryJobLeaseStore {
    var records: map<string, LeaseRecord>
    /** Every handle ever returned, the one behind each record, and every token drawn. */
    ghost var handles: set<JobLease>
    ghost var holders: map<string, JobLease>
    ghost var tokens: set<nat>

    ghost function Handed(): set<object>
      reads this
    {
      handles + set h | h in handles :: h.record
    }

    ghost predicate Valid()
      reads this, Handed()
    {
      && (forall h :: h in handles ==> h.record.token in tokens && h.fence == h.record.fence)
      && (forall g, h :: g in handles && h in handles && g != h ==> g.record != h.record && g.record.token != h.record.token)
      && holders.Keys == records.Keys
      && (forall job :: job in holders ==>
            holders[job] in handles && holders[job].jobId == job && holders[job].record == records[job])
    }

    constructor ()
      ensures Valid() && records == map[] && handles == {} && tokens == {}
    {
      records := map[];
      holders := map[];
      handles := {};
      tokens := {};
    }

    predicate Owns(jobId: string, token: nat, fence: int, now: int)
      reads this, records.Values
    {
      && jobId in records
      && records[jobId].token == token
      && records[jobId].fence == fence
      && records[jobId].expiresAt > now
    }

    /** Whether assertHeld would pass. */
    predicate Held(lease: JobLease, now: int)
      reads this, lease, records.Values
    {
      !lease.released && Owns(lease.jobId, lease.record.token, lease.fence, now)
    }

    /** At any instant at most one handle of a job passes assertHeld. */
    lemma AtMostOneHolder(g: JobLease, h: JobLease, now: int)
      requires Valid() && g in handles && h in handles && g.jobId == h.jobId
      requires Held(g, now) && Held(h, now)
      ensures g == h
    {
    }

    /** A handle that passes holds the job's own record, so renewing extends that lease. */
    lemma HeldMeansOwnRecord(h: JobLease, now: int)
      requires Valid() && h in handles && Held(h, now)
      ensures h.jobId in records && records[h.jobId] == h.record
    {
      assert holders[h.jobId].record == records[h.jobId];
    }

    /** A handle that was superseded, or whose record was released, never passes again
        while another handle, or none, stands behind the job. */
    lemma OnlyTheHolderPasses(h: JobLease, now: int)
      requires Valid() && h in handles
      requires h.jobId in holders ==> holders[h.jobId] != h
      ensures !Held(h, now)
    {
      assert h.jobId in records ==> holders[h.jobId].record == records[h.jobId];
    }

    /** Exactly who passes: a handle not released whose own record is still the job's, until
        that record runs out. */
    lemma HeldIff(h: JobLease, now: int)
      requires Valid() && h in handles
      ensures Held(h, now) <==>
                !h.released && h.jobId in records && records[h.jobId] == h.record && now < h.record.expiresAt
      ensures Owns(h.jobId, h.record.token, h.fence, now) <==>
                h.jobId in records && records[h.jobId] == h.record && now < h.record.expiresAt
    {
      assert h.jobId in records ==> holders[h.jobId].record == records[h.jobId];
    }

    /** Takes a job that nobody holds. `token` is a UUID never drawn before. */
    method Acquire(jobId: string, fence: int, ttlMs: int, token: nat, now: int) returns (lease: JobLease?)
      requires Valid() && token !in tokens
      modifies this
      ensures Valid()
      ensures lease == null <==> jobId in old(records) && old(records[jobId].expiresAt) > now
      ensures lease == null ==> records == old(records) && handles == old(handles) && tokens == old(tokens)
      ensures lease != null ==>
                && fresh(lease) && fresh(lease.record) && handles == old(handles) + {lease}
                && lease.jobId == jobId && lease.fence == fence && lease.ttlMs == ttlMs
                && lease.record.expiresAt == now + ttlMs && !lease.released
                && records == old(records)[jobId := lease.record] && holders == old(holders)[jobId := lease]
    {
      if jobId in records && records[jobId].expiresAt > now {
        return null;
      }
      var record := new LeaseRecord(token, fence, now + ttlMs);
      lease := new JobLease(jobId, fence, ttlMs, record);
      records := records[jobId := record];
      handles := handles + {lease};
      holders := holders[jobId := lease];
      tokens := tokens + {token};
    }

    /** Extends the caller's own unexpired lease, or does nothing at all. */
    method Renew(lease: JobLease, now: int) returns (renewed: bool)
      requires Valid() && lease in handles
      modifies lease.record
      ensures Valid()
      ensures renewed == old(Held(lease, now))
      ensures lease.record.expiresAt == if renewed then now + lease.ttlMs else old(lease.record.expiresAt)
      ensures forall h :: h in handles && h != lease ==> forall t :: Held(h, t) == old(Held(h, t))
    {
      if lease.released || !Owns(lease.jobId, lease.record.token, lease.fence, now) {
        return false;
      }
      HeldMeansOwnRecord(lease, now);
      forall h | h in handles && h != lease
        ensures h.record != lease.record
      {
      }
      lease.record.expiresAt := now + lease.ttlMs;
      renewed := true;
    }

    /** Gives up the caller's handle; the job's record goes only if it is the caller's
        own unexpired one. */
    method Release(lease: JobLease, now: int)
      requires Valid() && lease in handles
      modifies this, lease
      ensures Valid() && handles == old(handles) && tokens == old(tokens)
      ensures lease.released && !Held(lease, now)
      ensures records == if old(Owns(lease.jobId, lease.record.token, lease.fence, now)) then old(records) - {lease.jobId} else old(records)
      ensures forall h :: h in handles && h != lease ==> forall t :: t >= now ==> Held(h, t) == old(Held(h, t))
    {
      lease.released := true;
      if Owns(lease.jobId, lease.record.token, lease.fence, now) {
        records := records - {lease.jobId};
        holders := holders - {lease.jobId};
      }
    }
  }
}
