/**
 * Consequences of the handlers of backend/db/sync.js as written: what a
 * replayed event does, what an amended vote or delegation does, and how the
 * handlers move the total of `totalStake` over all profiles.
 */
module SyncProperties {
  import opened Sync

  /** Sum of `totalStake` over every profile row. */
  ghost function StakeSum(profiles: map<Address, Profile>): int
    decreases |profiles|
  {
    if profiles == map[] then 0
    else
      var a :| a in profiles;
      profiles[a].totalStake + StakeSum(profiles - {a})
  }

  /** The sum splits off any one row. */
  lemma {:induction false} StakeSumRemove(profiles: map<Address, Profile>, a: Address)
    requires a in profiles
    ensures StakeSum(profiles) == profiles[a].totalStake + StakeSum(profiles - {a})
    decreases |profiles|
  {
    var b :| b in profiles && StakeSum(profiles) == profiles[b].totalStake + StakeSum(profiles - {b});
    if b != a {
      StakeSumRemove(profiles - {b}, a);
      StakeSumRemove(profiles - {a}, b);
      assert profiles - {b} - {a} == profiles - {a} - {b};
    }
  }

  /** One `totalStake` update moves the sum by its delta, or not at all when the row is missing. */
  lemma AdjustStakeSum(profiles: map<Address, Profile>, address: Address, delta: int)
    ensures StakeSum(AdjustStake(profiles, address, delta))
            == StakeSum(profiles) + (if address in profiles then delta else 0)
  {
    if address in profiles {
      var adjusted := AdjustStake(profiles, address, delta);
      StakeSumRemove(profiles, address);
      StakeSumRemove(adjusted, address);
      assert adjusted - {address} == profiles - {address};
    }
  }

  /**
   * A StakeDelegated event takes `amount` out of the sum when the delegator
   * has a row and puts it back when the delegate has one: the sum is
   * conserved when both rows exist or neither does, and otherwise moves by
   * -amount or +amount.
   */
  lemma StakeDelegatedSum(t: Tables, from: Address, to: Address, amount: int)
    ensures StakeSum(StakeDelegated(t, from, to, amount).profiles)
            == StakeSum(t.profiles) - (if from in t.profiles then amount else 0)
                                    + (if to in t.profiles then amount else 0)
    ensures from in t.profiles && to in t.profiles ==>
              StakeSum(StakeDelegated(t, from, to, amount).profiles) == StakeSum(t.profiles)
  {
    var debited := AdjustStake(t.profiles, from, -amount);
    AdjustStakeSum(t.profiles, from, -amount);
    AdjustStakeSum(debited, to, amount);
  }

  /** Delegating to oneself overwrites the stake row and leaves every profile as it was. */
  lemma SelfDelegationKeepsProfiles(t: Tables, account: Address, amount: int)
    ensures StakeDelegated(t, account, account, amount).profiles == t.profiles
    ensures StakeDelegated(t, account, account, amount).stakes[StakeKey(account, account)] == amount
  {
    var r := StakeDelegated(t, account, account, amount);
    assert forall a :: a in t.profiles ==> r.profiles[a] == t.profiles[a];
  }

  /** A VoteAdded event never moves the sum of `totalStake`. */
  lemma VoteAddedKeepsStakeSum(t: Tables, voter: Address, vote: VoteEvent)
    ensures StakeSum(VoteAdded(t, voter, vote).profiles) == StakeSum(t.profiles)
  {
    var r := VoteAdded(t, voter, vote).profiles;
    if voter in t.profiles {
      StakeSumRemove(t.profiles, voter);
      StakeSumRemove(r, voter);
      assert r - {voter} == t.profiles - {voter};
    } else {
      assert r == t.profiles;
    }
  }

  /** Delivering the same ProfileFetched twice is the same as delivering it once. */
  lemma ProfileFetchedIdempotent(t: Tables, address: Address, profile: Profile)
    ensures ProfileFetched(ProfileFetched(t, address, profile), address, profile)
            == ProfileFetched(t, address, profile)
  {
  }

  /**
   * Delivering the same VoteAdded twice leaves the vote table as one delivery
   * does, but raises the voter's counter by two: the handler is not
   * replay-idempotent.
   */
  lemma VoteReplayCountsTwice(t: Tables, voter: Address, vote: VoteEvent)
    ensures var once := VoteAdded(t, voter, vote);
            var twice := VoteAdded(once, voter, vote);
            && twice.votes == once.votes
            && (voter in t.profiles ==>
                  && twice.profiles[voter].upvotes == t.profiles[voter].upvotes + 2 * Increment(vote.voteType, "UP")
                  && twice.profiles[voter].downvotes == t.profiles[voter].downvotes + 2 * Increment(vote.voteType, "DOWN"))
            && (voter in t.profiles && (vote.voteType == "UP" || vote.voteType == "DOWN") ==> twice != once)
  {
    var once := VoteAdded(t, voter, vote);
    var twice := VoteAdded(once, voter, vote);
    if voter in t.profiles && (vote.voteType == "UP" || vote.voteType == "DOWN") {
      assert twice.profiles[voter] != once.profiles[voter];
    }
  }

  /**
   * A voter who changes an UP vote to DOWN on the same subject ends with one
   * vote row saying DOWN, while the voter's own profile keeps the earlier
   * increment: both counters have gone up by one.
   */
  lemma VoteChangeKeepsOldCount(t: Tables, voter: Address, hash: string, t1: int, t2: int, stake1: int, stake2: int)
    ensures var first := VoteAdded(t, voter, VoteEvent(hash, t1, "UP", stake1));
            var second := VoteAdded(first, voter, VoteEvent(hash, t2, "DOWN", stake2));
            && second.votes[VoteKey(voter, hash)] == VoteRow(1000 * t2, "DOWN", stake2)
            && second.votes.Keys == t.votes.Keys + {VoteKey(voter, hash)}
            && (voter in t.profiles ==>
                  && second.profiles[voter].upvotes == t.profiles[voter].upvotes + 1
                  && second.profiles[voter].downvotes == t.profiles[voter].downvotes + 1)
  {
  }

  /**
   * From an empty store: a profile snapshot for `subject`, then an UP and a
   * DOWN vote by another account on it. The subject's row is the snapshot
   * unchanged, since the counters are keyed on the voter, and exactly one vote
   * row exists.
   */
  lemma VotesDoNotReachSubject(subject: Address, voter: Address, snapshot: Profile, hash: string, t1: int, t2: int, stake: int)
    requires subject != voter
    ensures var s0 := ProfileFetched(Tables(map[], map[], map[]), subject, snapshot);
            var s1 := VoteAdded(s0, voter, VoteEvent(hash, t1, "UP", stake));
            var s2 := VoteAdded(s1, voter, VoteEvent(hash, t2, "DOWN", stake));
            && s2.profiles == map[subject := snapshot]
            && s2.votes == map[VoteKey(voter, hash) := VoteRow(1000 * t2, "DOWN", stake)]
  {
    var s0 := ProfileFetched(Tables(map[], map[], map[]), subject, snapshot);
    var s1 := VoteAdded(s0, voter, VoteEvent(hash, t1, "UP", stake));
    var s2 := VoteAdded(s1, voter, VoteEvent(hash, t2, "DOWN", stake));
    assert s0.profiles == map[subject := snapshot];
    assert s1.profiles == s0.profiles;
    assert s2.profiles == s1.profiles;
  }

  /**
   * Delivering the same StakeDelegated twice leaves the stake row as one
   * delivery does, but moves `amount` twice between the two totals.
   */
  lemma StakeReplayMovesTwice(t: Tables, from: Address, to: Address, amount: int)
    ensures var once := StakeDelegated(t, from, to, amount);
            var twice := StakeDelegated(once, from, to, amount);
            && twice.stakes == once.stakes
            && (from in t.profiles && from != to ==>
                  twice.profiles[from].totalStake == t.profiles[from].totalStake - 2 * amount)
            && (to in t.profiles && from != to ==>
                  twice.profiles[to].totalStake == t.profiles[to].totalStake + 2 * amount)
  {
  }

  /**
   * Delegating `a` and then amending the same delegation to `b` leaves a
   * stake row of `b` but moves `a + b` between the two totals (100 then 40
   * moves 140), where a replay-safe projection would move only `b`.
   */
  lemma StakeAmendmentAddsUp(t: Tables, from: Address, to: Address, a: int, b: int)
    requires from != to
    ensures var first := StakeDelegated(t, from, to, a);
            var amended := StakeDelegated(first, from, to, b);
            && amended.stakes[StakeKey(from, to)] == b
            && (from in t.profiles ==> amended.profiles[from].totalStake == t.profiles[from].totalStake - (a + b))
            && (to in t.profiles ==> amended.profiles[to].totalStake == t.profiles[to].totalStake + (a + b))
  {
  }
}
