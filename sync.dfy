/**
 * The ledger-to-database projection of backend/db/sync.js.
 *
 * Three event handlers keep the `profiles`, `votes` and `delegated_stakes`
 * tables in step with the ledger. Each table is a finite map from its
 * primary key to the rest of its row. `INSERT ... ON CONFLICT DO UPDATE` is
 * an insert-or-overwrite of the map; `UPDATE ... WHERE address = k` changes
 * the row for `k` when there is one and does nothing otherwise.
 *
 * The pure functions below give the effect of each handler on the tables;
 * the class `SyncStore` runs the handlers statement by statement and is
 * proved to reach exactly that effect, or to leave the tables as they were
 * when a statement throws.
 */
module Sync {
  import opened Transactions

  type Address = string

  /** The non-key columns of a `profiles` row (the key is its address). */
  datatype Profile = Profile(
    name: string,
    bio: string,
    profilePicture: string,
    isWellnessProfessional: bool,
    upvotes: int,
    downvotes: int,
    reputation: int,
    totalStake: int)

  /** The `vote` argument of a VoteAdded event; `timestamp` is in seconds. */
  datatype VoteEvent = VoteEvent(
    wellnessProfessionalHash: string,
    timestamp: int,
    voteType: string,
    stakeAmount: int)

  /** Primary key of `votes`. */
  datatype VoteKey = VoteKey(voter: Address, wellnessProfessionalHash: string)

  /** The non-key columns of a `votes` row; the timestamp is in milliseconds. */
  datatype VoteRow = VoteRow(timestampMs: int, voteType: string, stakeAmount: int)

  /** Primary key of `delegated_stakes`. */
  datatype StakeKey = StakeKey(delegator: Address, delegate: Address)

  /** The three tables the handlers write. */
  datatype Tables = Tables(
    profiles: map<Address, Profile>,
    votes: map<VoteKey, VoteRow>,
    stakes: map<StakeKey, int>)

  /** The row `handleVoteAdded` stores for `vote`: seconds scaled to milliseconds. */
  function VoteRowOf(vote: VoteEvent): VoteRow
  {
    VoteRow(vote.timestamp * 1000, vote.voteType, vote.stakeAmount)
  }

  /**
   * The amount added to the counter for `counted` votes (`"UP"` for
   * `upvotes`, `"DOWN"` for `downvotes`) by a vote of type `voteType`.
   */
  function Increment(voteType: string, counted: string): int
  {
    if voteType == counted then 1 else 0
  }

  /**
   * `UPDATE profiles SET upvotes = upvotes + up, downvotes = downvotes + down
   * WHERE address = address`.
   */
  function AddVoteCounts(profiles: map<Address, Profile>, address: Address, up: int, down: int)
    : (r: map<Address, Profile>)
    ensures r.Keys == profiles.Keys
    ensures forall a :: a in profiles && a != address ==> r[a] == profiles[a]
    ensures address in profiles ==>
      && r[address].upvotes == profiles[address].upvotes + up
      && r[address].downvotes == profiles[address].downvotes + down
      && r[address] == profiles[address].(upvotes := r[address].upvotes, downvotes := r[address].downvotes)
  {
    if address in profiles then
      var p := profiles[address];
      profiles[address := p.(upvotes := p.upvotes + up, downvotes := p.downvotes + down)]
    else
      profiles
  }

  /** `UPDATE profiles SET totalStake = totalStake + delta WHERE address = address`. */
  function AdjustStake(profiles: map<Address, Profile>, address: Address, delta: int)
    : (r: map<Address, Profile>)
    ensures r.Keys == profiles.Keys
    ensures forall a :: a in profiles && a != address ==> r[a] == profiles[a]
    ensures address in profiles ==>
      && r[address].totalStake == profiles[address].totalStake + delta
      && r[address] == profiles[address].(totalStake := r[address].totalStake)
  {
    if address in profiles then
      var p := profiles[address];
      profiles[address := p.(totalStake := p.totalStake + delta)]
    else
      profiles
  }

  /** The effect of `handleProfileFetched(address, profile)`: a full-row upsert. */
  function ProfileFetched(t: Tables, address: Address, profile: Profile): (r: Tables)
    ensures r.profiles.Keys == t.profiles.Keys + {address}
    ensures r.profiles[address] == profile
    ensures forall a :: a in t.profiles && a != address ==> r.profiles[a] == t.profiles[a]
    ensures r.votes == t.votes && r.stakes == t.stakes
  {
    t.(profiles := t.profiles[address := profile])
  }

  /**
   * The effect of `handleVoteAdded(voter, _, vote)`: the vote row for
   * (voter, vote.wellnessProfessionalHash) is overwritten with the event's
   * values, and the counters of the profile whose address is the VOTER are
   * raised by one, whatever the previous vote on that key was.
   */
  function VoteAdded(t: Tables, voter: Address, vote: VoteEvent): (r: Tables)
    ensures r.votes.Keys == t.votes.Keys + {VoteKey(voter, vote.wellnessProfessionalHash)}
    ensures r.votes[VoteKey(voter, vote.wellnessProfessionalHash)]
            == VoteRow(1000 * vote.timestamp, vote.voteType, vote.stakeAmount)
    ensures forall k :: k in t.votes && k != VoteKey(voter, vote.wellnessProfessionalHash) ==>
              r.votes[k] == t.votes[k]
    ensures r.profiles.Keys == t.profiles.Keys
    ensures forall a :: a in t.profiles && a != voter ==> r.profiles[a] == t.profiles[a]
    ensures vote.voteType != "UP" && vote.voteType != "DOWN" ==> r.profiles == t.profiles
    ensures voter in t.profiles ==>
      && (r.profiles[voter].upvotes == t.profiles[voter].upvotes + 1 <==> vote.voteType == "UP")
      && (r.profiles[voter].upvotes == t.profiles[voter].upvotes <==> vote.voteType != "UP")
      && (r.profiles[voter].downvotes == t.profiles[voter].downvotes + 1 <==> vote.voteType == "DOWN")
      && (r.profiles[voter].downvotes == t.profiles[voter].downvotes <==> vote.voteType != "DOWN")
      && r.profiles[voter] == t.profiles[voter].(upvotes := r.profiles[voter].upvotes,
                                                 downvotes := r.profiles[voter].downvotes)
    ensures r.stakes == t.stakes
  {
    var key := VoteKey(voter, vote.wellnessProfessionalHash);
    t.(votes := t.votes[key := VoteRowOf(vote)],
       profiles := AddVoteCounts(t.profiles, voter, Increment(vote.voteType, "UP"), Increment(vote.voteType, "DOWN")))
  }

  /**
   * The effect of `handleStakeDelegated(from, to, amount)`: the stake row for
   * (from, to) is set to `amount`, `amount` is taken from `from`'s total and
   * given to `to`'s, each only where that profile exists.
   */
  function StakeDelegated(t: Tables, from: Address, to: Address, amount: int): (r: Tables)
    ensures r.stakes.Keys == t.stakes.Keys + {StakeKey(from, to)}
    ensures r.stakes[StakeKey(from, to)] == amount
    ensures forall k :: k in t.stakes && k != StakeKey(from, to) ==> r.stakes[k] == t.stakes[k]
    ensures r.profiles.Keys == t.profiles.Keys
    ensures forall a :: a in t.profiles ==>
      r.profiles[a] == t.profiles[a].(totalStake := t.profiles[a].totalStake
                                        - (if a == from then amount else 0)
                                        + (if a == to then amount else 0))
    ensures r.votes == t.votes
  {
    var debited := AdjustStake(t.profiles, from, -amount);
    t.(stakes := t.stakes[StakeKey(from, to) := amount],
       profiles := AdjustStake(debited, to, amount))
  }

  /** The database the handlers write to, one field per table. */
  class SyncStore {
    var profiles: map<Address, Profile>
    var votes: map<VoteKey, VoteRow>
    var stakes: map<StakeKey, int>

    /** The three tables as one value. */
    function State(): Tables
      reads this
    {
      Tables(profiles, votes, stakes)
    }

    constructor ()
      ensures State() == Tables(map[], map[], map[])
    {
      profiles, votes, stakes := map[], map[], map[];
    }

    /**
     * The tables become `snapshot`. It stands for `ROLLBACK` only as the
     * handlers below use it, passing the state they saved at `BEGIN`.
     */
    method Rollback(snapshot: Tables)
      modifies this
      ensures State() == snapshot
    {
      profiles, votes, stakes := snapshot.profiles, snapshot.votes, snapshot.stakes;
    }

    /**
     * handleProfileFetched: one statement outside any transaction
     * (statement 0, the upsert); when it throws nothing is written.
     */
    method HandleProfileFetched(address: Address, profile: Profile, fault: Fault) returns (ok: bool)
      modifies this
      ensures ok == !Aborts(fault, 1)
      ensures State() == if ok then ProfileFetched(old(State()), address, profile) else old(State())
    {
      if Throws(fault, 0) {
        return false;
      }
      profiles := profiles[address := profile];
      ok := true;
    }

    /**
     * handleVoteAdded. Statements: 0 BEGIN, 1 the vote upsert, 2 the counter
     * update, 3 COMMIT. When one throws, the transaction is rolled back and
     * the error is passed on (`ok` is false). The second argument, the
     * subject's address, is not used by the handler.
     */
    method HandleVoteAdded(voter: Address, wellnessProfessional: Address, vote: VoteEvent, fault: Fault)
      returns (ok: bool)
      modifies this
      ensures ok == !Aborts(fault, 4)
      ensures State() == if ok then VoteAdded(old(State()), voter, vote) else old(State())
    {
      var snapshot := State();
      if Throws(fault, 0) {
        Rollback(snapshot);
        return false;
      }
      if Throws(fault, 1) {
        Rollback(snapshot);
        return false;
      }
      votes := votes[VoteKey(voter, vote.wellnessProfessionalHash) := VoteRowOf(vote)];
      if Throws(fault, 2) {
        Rollback(snapshot);
        return false;
      }
      profiles := AddVoteCounts(profiles, voter, Increment(vote.voteType, "UP"), Increment(vote.voteType, "DOWN"));
      if Throws(fault, 3) {
        Rollback(snapshot);
        return false;
      }
      ok := true;
    }

    /**
     * handleStakeDelegated. Statements: 0 BEGIN, 1 the stake upsert, 2 the
     * debit of `from`, 3 the credit of `to`, 4 COMMIT. When one throws, the
     * transaction is rolled back and the error is passed on.
     */
    method HandleStakeDelegated(from: Address, to: Address, amount: int, fault: Fault)
      returns (ok: bool)
      modifies this
      ensures ok == !Aborts(fault, 5)
      ensures State() == if ok then StakeDelegated(old(State()), from, to, amount) else old(State())
    {
      var snapshot := State();
      if Throws(fault, 0) {
        Rollback(snapshot);
        return false;
      }
      if Throws(fault, 1) {
        Rollback(snapshot);
        return false;
      }
      stakes := stakes[StakeKey(from, to) := amount];
      if Throws(fault, 2) {
        Rollback(snapshot);
        return false;
      }
      profiles := AdjustStake(profiles, from, -amount);
      if Throws(fault, 3) {
        Rollback(snapshot);
        return false;
      }
      profiles := AdjustStake(profiles, to, amount);
      if Throws(fault, 4) {
        Rollback(snapshot);
        return false;
      }
      ok := true;
    }
  }
}
