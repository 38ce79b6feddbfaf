/**
 * The Soroban attendance-reward contract (`EducationRewardContract`).
 *
 * The contract keeps its configuration, the list of participants and two
 * running totals in instance storage, and one `ParticipationData` record per
 * participant in persistent storage. Every entry point either fails with an
 * error code and writes nothing, or performs all of its writes.
 *
 * The ledger clock and the outcome of the cross-contract token transfer are
 * parameters of the operations that use them.
 */
module RewardContract {
  import opened Wrappers

  /** The contract's error codes (a `#[contracterror]` enum, carried as a u32). */
  datatype Error =
    | AlreadyParticipated
    | InvalidComment
    | TokenTransferFailed
    | NotAuthorized
    | ParticipationNotFound
    | TokenExpired

  /** The numeric code a client receives for an error. */
  function Code(e: Error): (c: nat)
    ensures 1 <= c <= 6
  {
    match e
    case AlreadyParticipated => 1
    case InvalidComment => 2
    case TokenTransferFailed => 3
    case NotAuthorized => 4
    case ParticipationNotFound => 5
    case TokenExpired => 6
  }

  /** Decodes a numeric code received by a client; codes outside 1..6 are not errors of this contract. */
  function FromCode(c: nat): (r: Option<Error>)
    ensures r.Some? <==> 1 <= c <= 6
  {
    if c == 1 then Some(AlreadyParticipated)
    else if c == 2 then Some(InvalidComment)
    else if c == 3 then Some(TokenTransferFailed)
    else if c == 4 then Some(NotAuthorized)
    else if c == 5 then Some(ParticipationNotFound)
    else if c == 6 then Some(TokenExpired)
    else None
  }

  /** Every error survives the trip through its numeric code, so no two errors share a code. */
  lemma CodeRoundTrip(e: Error)
    ensures FromCode(Code(e)) == Some(e)
  {
  }

  /** Every valid code decodes to the error that carries it. */
  lemma FromCodeRoundTrip(c: nat)
    requires 1 <= c <= 6
    ensures FromCode(c).Some? && Code(FromCode(c).value) == c
  {
  }

  /** A Soroban account or contract address; only its identity matters here. */
  datatype Address = Address(id: string)

  /** The record kept in persistent storage under `DataKey::Participation(participant)`. */
  datatype ParticipationData = ParticipationData(
    participant: Address,
    timestamp: nat,
    comment: string,
    rewardAmount: int,
    rewardClaimed: bool,
    expiry: nat)

  const SecondsPerDay: nat := 24 * 60 * 60

  /** The moment a token issued at `now` expires: a lifetime of exactly `days` whole days. */
  function ExpiryTime(now: nat, days: nat): (t: nat)
    ensures now <= t
    ensures (t - now) % SecondsPerDay == 0 && (t - now) / SecondsPerDay == days
  {
    now + days * SecondsPerDay
  }

  /** Whether the record stored for `p` exists and has expired strictly before `now`. */
  predicate Expired(records: map<Address, ParticipationData>, p: Address, now: nat)
  {
    p in records && now > records[p].expiry
  }

  /** The listed addresses whose records have expired at `now`. */
  ghost function ExpiredAmong(records: map<Address, ParticipationData>, list: seq<Address>, now: nat): set<Address>
  {
    set a | a in list && Expired(records, a, now)
  }

  /**
   * What the cleanup loop does to a snapshot of persistent storage after
   * visiting the addresses of `list` in order: the records left and how many
   * were removed. A later duplicate of an address already removed finds no
   * record and is not counted again.
   */
  function Sweep(records: map<Address, ParticipationData>, list: seq<Address>, now: nat)
    : (r: (map<Address, ParticipationData>, nat))
    ensures r.1 <= |list|
    ensures r.0.Keys <= records.Keys
    ensures forall a :: a in r.0 ==> r.0[a] == records[a]
    ensures forall a :: a in records && a !in list ==> a in r.0
    decreases |list|
  {
    if list == [] then (records, 0)
    else
      var prefix := list[..|list| - 1];
      var last := list[|list| - 1];
      assert forall a :: a in prefix ==> a in list;
      var (m, n) := Sweep(records, prefix, now);
      if Expired(m, last, now) then (m - {last}, n + 1) else (m, n)
  }

  /** The sweep removes exactly the listed expired records and counts each of them once. */
  lemma {:induction false} SweepIsExact(records: map<Address, ParticipationData>, list: seq<Address>, now: nat)
    ensures Sweep(records, list, now).0 == records - ExpiredAmong(records, list, now)
    ensures Sweep(records, list, now).1 == |ExpiredAmong(records, list, now)|
    decreases |list|
  {
    if list != [] {
      var prefix := list[..|list| - 1];
      var last := list[|list| - 1];
      assert list == prefix + [last];
      SweepIsExact(records, prefix, now);
      var before := ExpiredAmong(records, prefix, now);
      var after := ExpiredAmong(records, list, now);
      if Expired(records, last, now) && last !in before {
        assert after == before + {last};
      } else {
        assert after == before;
      }
    }
  }

  /** Visiting one more address of the list extends the sweep by that address alone. */
  lemma SweepStep(records: map<Address, ParticipationData>, list: seq<Address>, i: nat, now: nat)
    requires i < |list|
    ensures var (m, n) := Sweep(records, list[..i], now);
      Sweep(records, list[..i + 1], now) ==
        if Expired(m, list[i], now) then (m - {list[i]}, n + 1) else (m, n)
  {
    assert list[..i + 1][..i] == list[..i];
  }

  /** Sum of a sequence of token amounts. */
  function Sum(amounts: seq<int>): int
  {
    if amounts == [] then 0 else Sum(amounts[..|amounts| - 1]) + amounts[|amounts| - 1]
  }

  /**
   * The contract's storage. `initialized` stands for the instance-storage keys
   * having been set by `initialize`; before that the getters read their
   * defaults (an empty list and zero totals), which the fields hold.
   */
  class EducationRewardContract {
    // Instance storage.
    var initialized: bool
    var admin: Address
    var tokenContract: Address
    var rewardAmount: int
    var tokenExpiryDays: nat
    var participants: seq<Address>
    var totalParticipants: nat
    var totalRewardsDistributed: int
    // Persistent storage: the `DataKey::Participation(address)` entries.
    var records: map<Address, ParticipationData>
    /** The amount transferred to each listed participant, in list order. */
    ghost var payouts: seq<int>

    /**
     * The counters agree with the list, the rewards total is what was paid
     * out, and each record sits under its own participant's key, has not
     * expired before it was issued and has no reward claimed (nothing in the
     * contract ever claims one).
     */
    ghost predicate Valid()
      reads this
    {
      && totalParticipants == |participants|
      && |payouts| == |participants|
      && totalRewardsDistributed == Sum(payouts)
      && forall a :: a in records ==>
           records[a].participant == a && records[a].timestamp <= records[a].expiry && !records[a].rewardClaimed
    }

    /** A freshly deployed contract: nothing stored yet. */
    constructor ()
      ensures Valid() && !initialized
      ensures records == map[] && participants == []
      ensures totalParticipants == 0 && totalRewardsDistributed == 0 && payouts == []
    {
      initialized := false;
      admin := Address([]);
      tokenContract := Address([]);
      rewardAmount := 0;
      tokenExpiryDays := 0;
      participants := [];
      totalParticipants := 0;
      totalRewardsDistributed := 0;
      records := map[];
      payouts := [];
    }

    /** `initialize`: stores the configuration and restarts the list and both totals; stored records are kept. */
    method Initialize(newAdmin: Address, newTokenContract: Address, newRewardAmount: int, newExpiryDays: nat)
      requires Valid()
      modifies this
      ensures Valid() && initialized
      ensures admin == newAdmin && tokenContract == newTokenContract
      ensures rewardAmount == newRewardAmount && tokenExpiryDays == newExpiryDays
      ensures participants == [] && totalParticipants == 0 && totalRewardsDistributed == 0
      ensures payouts == [] && records == old(records)
    {
      admin := newAdmin;
      tokenContract := newTokenContract;
      rewardAmount := newRewardAmount;
      tokenExpiryDays := newExpiryDays;
      totalParticipants := 0;
      totalRewardsDistributed := 0;
      participants := [];
      payouts := [];
      initialized := true;
    }

    /**
     * `participate`: rejects an empty comment, then an address that already
     * has a record, then a failed token transfer; only after the transfer
     * succeeded does it write the record, append the participant and bump
     * both totals. The configuration must be present once the two input
     * checks have passed.
     */
    method Participate(participant: Address, comment: string, now: nat, transferSucceeds: bool)
      returns (r: Result<(), Error>)
      requires Valid()
      requires comment != [] && participant !in records ==> initialized
      modifies this
      ensures Valid()
      ensures r == Err(InvalidComment) <==> comment == []
      ensures r == Err(AlreadyParticipated) <==> comment != [] && participant in old(records)
      ensures r == Err(TokenTransferFailed) <==> comment != [] && participant !in old(records) && !transferSucceeds
      ensures r.Ok? <==> comment != [] && participant !in old(records) && transferSucceeds
      ensures initialized == old(initialized) && admin == old(admin) && tokenContract == old(tokenContract)
      ensures rewardAmount == old(rewardAmount) && tokenExpiryDays == old(tokenExpiryDays)
      ensures r.Err? ==>
        && records == old(records) && participants == old(participants)
        && totalParticipants == old(totalParticipants)
        && totalRewardsDistributed == old(totalRewardsDistributed)
        && payouts == old(payouts)
      ensures r.Ok? ==>
        && records == old(records)[participant := ParticipationData(
             participant, now, comment, rewardAmount, false, ExpiryTime(now, tokenExpiryDays))]
        && participants == old(participants) + [participant]
        && totalParticipants == old(totalParticipants) + 1
        && totalRewardsDistributed == old(totalRewardsDistributed) + rewardAmount
        && payouts == old(payouts) + [rewardAmount]
    {
      if comment == [] {
        return Err(InvalidComment);
      }
      if participant in records {
        return Err(AlreadyParticipated);
      }
      var amount := rewardAmount;
      var participation := ParticipationData(
        participant, now, comment, amount, false, ExpiryTime(now, tokenExpiryDays));
      if !transferSucceeds {
        return Err(TokenTransferFailed);
      }
      records := records[participant := participation];
      participants := participants + [participant];
      assert (payouts + [amount])[..|payouts|] == payouts;
      payouts := payouts + [amount];
      totalParticipants := totalParticipants + 1;
      totalRewardsDistributed := totalRewardsDistributed + amount;
      return Ok(());
    }

    /** `get_participation`: the stored record of an address, if any. */
    method GetParticipation(participant: Address) returns (r: Option<ParticipationData>)
      requires Valid()
      ensures r.Some? <==> participant in records
      ensures r.Some? ==> r.value == records[participant]
      ensures r.Some? ==> r.value.participant == participant && !r.value.rewardClaimed
    {
      r := if participant in records then Some(records[participant]) else None;
    }

    /** `get_participants`: every successful participation since `initialize`, in order. */
    method GetParticipants() returns (list: seq<Address>)
      requires Valid()
      ensures list == participants && |list| == totalParticipants
    {
      list := participants;
    }

    /** `get_total_participants`: always the length of the participant list. */
    method GetTotalParticipants() returns (n: nat)
      requires Valid()
      ensures n == |participants|
    {
      n := totalParticipants;
    }

    /** `get_total_rewards_distributed`: the sum of the amounts transferred to the listed participants. */
    method GetTotalRewardsDistributed() returns (total: int)
      requires Valid()
      ensures total == Sum(payouts)
    {
      total := totalRewardsDistributed;
    }

    /** `update_reward_amount`: only the admin may change the configured reward. */
    method UpdateRewardAmount(caller: Address, newAmount: int) returns (r: Result<(), Error>)
      requires Valid() && initialized
      modifies this`rewardAmount
      ensures Valid()
      ensures r.Ok? <==> caller == admin
      ensures r.Err? ==> r.error == NotAuthorized
      ensures rewardAmount == if caller == admin then newAmount else old(rewardAmount)
    {
      if caller != admin {
        return Err(NotAuthorized);
      }
      rewardAmount := newAmount;
      return Ok(());
    }

    /** `is_token_expired`: false without a record, otherwise whether `now` is strictly past the expiry. */
    function IsTokenExpired(participant: Address, now: nat): (r: bool)
      reads this
      ensures participant !in records ==> !r
      ensures participant in records ==> (r <==> now > records[participant].expiry)
    {
      Expired(records, participant, now)
    }

    /**
     * `cleanup_expired_tokens`: only the admin may call it; it walks the
     * participant list, removes each record that has expired and returns how
     * many it removed. The list and both totals are left as they are.
     */
    method CleanupExpiredTokens(caller: Address, now: nat) returns (r: Result<nat, Error>)
      requires Valid() && initialized
      modifies this`records
      ensures Valid()
      ensures caller != admin ==> r == Err(NotAuthorized) && records == old(records)
      ensures caller == admin ==>
        && r == Ok(|ExpiredAmong(old(records), participants, now)|)
        && records == old(records) - ExpiredAmong(old(records), participants, now)
    {
      if caller != admin {
        return Err(NotAuthorized);
      }
      var list := participants;
      var cleaned := 0;
      var i := 0;
      while i < |list|
        invariant 0 <= i <= |list|
        invariant records == Sweep(old(records), list[..i], now).0
        invariant cleaned == Sweep(old(records), list[..i], now).1
      {
        var p := list[i];
        SweepStep(old(records), list, i, now);
        if IsTokenExpired(p, now) {
          records := records - {p};
          cleaned := cleaned + 1;
        }
        i := i + 1;
      }
      assert list[..i] == list;
      SweepIsExact(old(records), list, now);
      assert forall a :: a in records ==> records[a] == old(records)[a];
      return Ok(cleaned);
    }
  }

  /**
   * A participant whose record expired is removed by the admin's cleanup and
   * may then participate again, this time with a fresh record.
   */
  method CleanupThenRejoin(c: EducationRewardContract, p: Address, comment: string, now: nat)
    returns (r: Result<(), Error>)
    requires c.Valid() && c.initialized
    requires p in c.participants && c.IsTokenExpired(p, now)
    requires comment != []
    modifies c
    ensures c.Valid()
    ensures r.Ok? && p in c.records && c.records[p].timestamp == now
    ensures c.participants == old(c.participants) + [p]
  {
    var cleaned := c.CleanupExpiredTokens(c.admin, now);
    assert p in ExpiredAmong(old(c.records), c.participants, now);
    r := c.Participate(p, comment, now, true);
  }
}
