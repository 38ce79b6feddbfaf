/**
 * The participation state machine of the attendance page (`Home`).
 *
 * The page keeps a connected wallet address, the displayed participation
 * status, the comment being typed and two message banners in memory, and
 * mocks the contract with the browser's key-value storage: one record under
 * `participation_<address>` and an append-only `participation_history` list.
 * The wallet's answer and the clock are parameters of the operations that
 * use them.
 */
module AttendancePage {
  import opened Wrappers

  /** The record the page stores for an address. */
  datatype ParticipationData = ParticipationData(
    address: string,
    timestamp: int,
    comment: string,
    rewardClaimed: bool)

  /** The displayed status: 'not-participated', 'participated' or 'reward-claimed'. */
  datatype Status = NotParticipated | Participated | RewardClaimed

  /** What a message banner shows: nothing, or one of the texts the handlers set. */
  datatype Message =
    | NoMessage
    | FillInComment              // "please fill in the comment field"
    | WalletConnected            // "wallet connected successfully"
    | WalletConnectionFailed     // "could not connect; is the wallet installed?"
    | RewardTransferred(amount: int)  // "congratulations, <amount> EDU transferred"

  /** The status a stored record displays as. */
  function StatusOf(data: ParticipationData): (s: Status)
    ensures s != NotParticipated
    ensures s == RewardClaimed <==> data.rewardClaimed
  {
    if data.rewardClaimed then RewardClaimed else Participated
  }

  const RecordKeyPrefix: string := "participation_"

  /** The storage key of an address's record. */
  function RecordKey(address: string): string
  {
    RecordKeyPrefix + address
  }

  /** Distinct addresses never share a storage key. */
  lemma RecordKeyInjective(a: string, b: string)
    requires RecordKey(a) == RecordKey(b)
    ensures a == b
  {
    assert a == RecordKey(a)[|RecordKeyPrefix|..];
    assert b == RecordKey(b)[|RecordKeyPrefix|..];
  }

  /** A non-empty address never takes the empty address's key. */
  lemma RecordKeyNonEmpty(address: string)
    requires address != []
    ensures RecordKey(address) != RecordKey([])
  {
    if RecordKey(address) == RecordKey([]) {
      RecordKeyInjective(address, []);
    }
  }

  /** ECMAScript white space and line terminators: what `String.prototype.trim` removes. */
  predicate IsWhiteSpace(c: char)
  {
    var n := c as int;
    || n == 0x09 || n == 0x0A || n == 0x0B || n == 0x0C || n == 0x0D || n == 0x20
    || n == 0xA0 || n == 0x1680 || 0x2000 <= n <= 0x200A || n == 0x2028 || n == 0x2029
    || n == 0x202F || n == 0x205F || n == 0x3000 || n == 0xFEFF
  }

  /** How many white-space characters `s` starts with. */
  function LeadingWhiteSpace(s: string): (n: nat)
    ensures n <= |s|
    ensures forall i :: 0 <= i < n ==> IsWhiteSpace(s[i])
    ensures n < |s| ==> !IsWhiteSpace(s[n])
  {
    if s != [] && IsWhiteSpace(s[0]) then 1 + LeadingWhiteSpace(s[1..]) else 0
  }

  /** How many white-space characters `s` ends with. */
  function TrailingWhiteSpace(s: string): (n: nat)
    ensures n <= |s|
    ensures forall i :: |s| - n <= i < |s| ==> IsWhiteSpace(s[i])
    ensures n < |s| ==> !IsWhiteSpace(s[|s| - n - 1])
  {
    if s != [] && IsWhiteSpace(s[|s| - 1]) then 1 + TrailingWhiteSpace(s[..|s| - 1]) else 0
  }

  /**
   * `s.trim()`: the part of `s` between its leading and its trailing white
   * space. It is empty exactly when `s` is all white space.
   */
  function Trim(s: string): (r: string)
    ensures var k := LeadingWhiteSpace(s);
      && k + |r| <= |s| && r == s[k..k + |r|]
      && (forall i :: 0 <= i < k ==> IsWhiteSpace(s[i]))
      && (forall i :: k + |r| <= i < |s| ==> IsWhiteSpace(s[i]))
    ensures r != [] ==> !IsWhiteSpace(r[0]) && !IsWhiteSpace(r[|r| - 1])
    ensures r == [] <==> forall i :: 0 <= i < |s| ==> IsWhiteSpace(s[i])
  {
    var k := LeadingWhiteSpace(s);
    if k == |s| then []
    else
      var n := TrailingWhiteSpace(s);
      assert k < |s| - n;
      s[k..|s| - n]
  }

  /** Trimming twice changes nothing more. */
  lemma TrimIdempotent(s: string)
    ensures Trim(Trim(s)) == Trim(s)
  {
  }

  /** The page component's state and the browser storage it writes. */
  class Home {
    // React state.
    var publicKey: Option<string>
    var participationStatus: Status
    var comment: string
    const rewardAmount: int := 100
    var errorMessage: Message
    var successMessage: Message
    // Browser storage: the `participation_<address>` entries and `participation_history`.
    var store: map<string, ParticipationData>
    var history: Option<seq<ParticipationData>>

    /** The status shown for an address: the one its stored record displays as, if it has one. */
    ghost function DerivedStatus(address: string): Status
      reads this
    {
      if RecordKey(address) in store then StatusOf(store[RecordKey(address)]) else NotParticipated
    }

    /**
     * Without a wallet the page shows 'not-participated'; with one it shows
     * the status derived from that address's stored record. No record is
     * stored under the empty address, which the page never writes.
     */
    ghost predicate Valid()
      reads this
    {
      && RecordKey([]) !in store
      && match publicKey
      case None => participationStatus == NotParticipated
      case Some(address) => participationStatus == DerivedStatus(address)
    }

    /** The page as first rendered, over what earlier visits of the page left in storage. */
    constructor (storedRecords: map<string, ParticipationData>, storedHistory: Option<seq<ParticipationData>>)
      requires RecordKey([]) !in storedRecords
      ensures Valid()
      ensures publicKey == None && participationStatus == NotParticipated && comment == []
      ensures errorMessage == NoMessage && successMessage == NoMessage
      ensures store == storedRecords && history == storedHistory
    {
      publicKey := None;
      participationStatus := NotParticipated;
      comment := [];
      errorMessage := NoMessage;
      successMessage := NoMessage;
      store := storedRecords;
      history := storedHistory;
    }

    /**
     * `checkParticipationStatus`: with a stored record for `address` the
     * status and the comment come from it; without one nothing changes.
     */
    method CheckParticipationStatus(address: string)
      modifies this`participationStatus, this`comment
      ensures RecordKey(address) in store ==>
        && participationStatus == StatusOf(store[RecordKey(address)])
        && comment == store[RecordKey(address)].comment
      ensures RecordKey(address) !in store ==>
        participationStatus == old(participationStatus) && comment == old(comment)
    {
      var key := RecordKey(address);
      if key in store {
        var data := store[key];
        participationStatus := if data.rewardClaimed then RewardClaimed else Participated;
        comment := data.comment;
      }
    }

    /**
     * `handleConnectWallet`, offered while `!publicKey`: no address, or the
     * empty one. `wallet` is the address the wallet extension hands over, or
     * `None` when it refuses or is missing; a refusal keeps the old address.
     */
    method ConnectWallet(wallet: Option<string>)
      requires Valid() && (publicKey.None? || publicKey.value == [])
      modifies this
      ensures Valid()
      ensures publicKey == if wallet.Some? then wallet else old(publicKey)
      ensures store == old(store) && history == old(history)
      ensures wallet.None? ==>
        && errorMessage == WalletConnectionFailed && successMessage == old(successMessage)
        && participationStatus == old(participationStatus) && comment == old(comment)
      ensures wallet.Some? ==>
        && errorMessage == NoMessage && successMessage == WalletConnected
        && participationStatus == DerivedStatus(wallet.value)
        && (RecordKey(wallet.value) in store ==> comment == store[RecordKey(wallet.value)].comment)
        && (RecordKey(wallet.value) !in store ==> comment == old(comment))
    {
      errorMessage := NoMessage;
      match wallet {
        case None =>
          errorMessage := WalletConnectionFailed;
        case Some(address) =>
          publicKey := Some(address);
          CheckParticipationStatus(address);
          successMessage := WalletConnected;
      }
    }

    /** The comment box's change handler. */
    method EditComment(text: string)
      requires Valid()
      modifies this`comment
      ensures Valid() && comment == text
    {
      comment := text;
    }

    /**
     * `handleParticipation`: without a connected address or with a comment
     * that trims to nothing it only shows an error. Otherwise it stores a
     * record with the reward claimed under the address's key, appends the
     * same record to the history (an absent history counts as empty), shows
     * 'reward-claimed' and clears the comment. `now` stands for `Date.now()`.
     */
    method HandleParticipation(now: int)
      requires Valid()
      modifies this
      ensures Valid()
      ensures publicKey == old(publicKey)
      ensures (publicKey.None? || publicKey.value == [] || Trim(old(comment)) == []) ==>
        && errorMessage == FillInComment
        && successMessage == old(successMessage)
        && participationStatus == old(participationStatus) && comment == old(comment)
        && store == old(store) && history == old(history)
      ensures (publicKey.Some? && publicKey.value != [] && Trim(old(comment)) != []) ==>
        var data := ParticipationData(publicKey.value, now, Trim(old(comment)), true);
        && store == old(store)[RecordKey(publicKey.value) := data]
        && history == Some(old(history).GetOr([]) + [data])
        && participationStatus == RewardClaimed && comment == []
        && errorMessage == NoMessage && successMessage == RewardTransferred(rewardAmount)
    {
      var trimmed := Trim(comment);
      if publicKey.None? || publicKey.value == [] || trimmed == [] {
        errorMessage := FillInComment;
        return;
      }
      errorMessage := NoMessage;
      var address := publicKey.value;
      var data := ParticipationData(address, now, trimmed, true);
      RecordKeyNonEmpty(address);
      store := store[RecordKey(address) := data];
      var past := if history.Some? then history.value else [];
      history := Some(past + [data]);
      participationStatus := RewardClaimed;
      assert DerivedStatus(address) == StatusOf(data) == RewardClaimed;
      successMessage := RewardTransferred(rewardAmount);
      comment := [];
    }

    /** `handleDisconnectWallet`: forgets the wallet and the displayed state; storage is untouched. */
    method HandleDisconnectWallet()
      requires Valid()
      modifies this
      ensures Valid()
      ensures publicKey == None && participationStatus == NotParticipated && comment == []
      ensures errorMessage == NoMessage && successMessage == NoMessage
      ensures store == old(store) && history == old(history)
    {
      publicKey := None;
      participationStatus := NotParticipated;
      comment := [];
      errorMessage := NoMessage;
      successMessage := NoMessage;
    }
  }

  /**
   * Submitting a comment, disconnecting and connecting the same address again
   * shows 'reward-claimed' and the trimmed comment, read back from storage.
   */
  method SubmitDisconnectReconnect(page: Home, address: string, text: string, now: int)
    requires page.Valid() && page.publicKey == Some(address) && address != []
    requires Trim(text) != []
    modifies page
    ensures page.Valid()
    ensures page.publicKey == Some(address)
    ensures page.participationStatus == RewardClaimed && page.comment == Trim(text)
  {
    page.EditComment(text);
    page.HandleParticipation(now);
    page.HandleDisconnectWallet();
    page.ConnectWallet(Some(address));
  }
}
