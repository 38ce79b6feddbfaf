# Attendance reward system, modelled in Dafny

The repository has two independent parts. Both are state machines over
key-value storage, and the frontend never calls the contract.

* **`EducationRewardContract`** is a Soroban smart contract
  (`RewardContract.dfy`). An admin initialises it with a reward token, a reward
  amount and a token lifetime in days. A participant submits a non-empty
  comment once. The contract transfers the reward and only then records the
  participation. It appends the participant to a list and raises two running
  totals. The admin may change the reward amount. The admin may also remove
  every listed record whose expiry has passed, after which those addresses may
  participate again. Nothing stops a second `initialize`: it empties the list
  and zeroes both totals but keeps every stored record, so earlier participants
  are neither swept by a later cleanup (they are no longer listed) nor able to
  participate again (they still have a record).
* **The attendance page** (`AttendancePage.dfy`) is the `Home` component of the
  web frontend. It mocks the contract with browser storage. It connects a
  wallet address and derives the displayed status from the record stored for
  that address. On a valid submission it stores a record with the reward
  already claimed and appends it to a history list. Disconnecting resets the
  in-memory state and leaves storage untouched.

Each source entity with state updated in place is a Dafny `class`:

* `EducationRewardContract` holds one field per instance-storage key
  (`Admin`, `TokenContract`, `RewardAmount`, `TokenExpiry`, `ParticipantList`,
  `TotalParticipants`, `TotalRewardsDistributed`). It also holds a map for the
  persistent `Participation(address)` entries.
* `Home` holds the React state and the two storage entries the page writes.

Each entry point is a method. Its `ensures` give the full new state and its
result. `Valid()` is the invariant every method keeps:

* For the contract, `TotalParticipants` is the length of the list.
* For the contract, `TotalRewardsDistributed` is the sum of the amounts paid to
  the listed participants, held in a ghost `payouts` sequence.
* For the contract, every record is stored under its own participant's key and
  has no reward claimed.
* For the page, the displayed status is always the one derived from the
  connected address's stored record, and `not-participated` when no wallet is
  connected.

The cleanup loop is proved against `Sweep`, a recursive function over the
visited prefix of the list. `SweepIsExact` then shows what `Sweep` removes and
counts.

Values supplied by the outside world are method parameters:

* `now` stands for the ledger timestamp and for `Date.now()`.
* `transferSucceeds` is the outcome of the token contract's `try_transfer`.
* `wallet` is the address returned by the wallet extension.

The files are `Wrappers.dfy` (`Option`, `Result`), `RewardContract.dfy` and
`AttendancePage.dfy`.

Behaviour of the handlers worth knowing:

* `handleParticipation` does not check that the status is still
  `not-participated`. A second valid submission overwrites the stored record
  and appends the record to the history again.
* The 500-character comment limit is only an attribute of the text box. The
  handler does not enforce it.
* `!publicKey` also rejects a connected address that is the empty string.

## Model

| member | source | states |
|---|---|---|
| RewardContract.Code | attendance-reward-contract/src/lib.rs:7-17 | every contract error is reported as a u32 code between 1 and 6 |
| RewardContract.FromCode | attendance-reward-contract/src/lib.rs:7-17 | a client can decode exactly the codes 1..6 into contract errors |
| RewardContract.CodeRoundTrip | attendance-reward-contract/src/lib.rs:7-17 | decoding an error's code gives back that error, so no two errors share a code |
| RewardContract.FromCodeRoundTrip | attendance-reward-contract/src/lib.rs:7-17 | each of the codes 1..6 is the code of the error it decodes to |
| RewardContract.ExpiryTime | attendance-reward-contract/src/lib.rs:95-96 | a token issued at `now` expires no earlier than `now`, after exactly `days` whole days of 86400 seconds |
| RewardContract.Sweep | attendance-reward-contract/src/lib.rs:204-213 | the cleanup walk over the list removes at most one record per list entry, only removes records and leaves every surviving record and every unlisted record as it was |
| RewardContract.SweepStep | attendance-reward-contract/src/lib.rs:208-212 | a loop-bridging helper: `Sweep` unfolded by one step, so that one iteration of the loop (removing and counting the next listed address's record exactly when it is present and expired at that point) extends the sweep of the visited prefix |
| RewardContract.SweepIsExact | attendance-reward-contract/src/lib.rs:204-215 | the cleanup walk removes exactly the listed records that have expired and counts each of them once, also when an address is listed twice |
| RewardContract.EducationRewardContract.constructor | attendance-reward-contract/src/lib.rs:150-169 | before `initialize` there are no records, the list is empty and both totals are zero, which is what the getters read as defaults |
| RewardContract.EducationRewardContract.Initialize | attendance-reward-contract/src/lib.rs:48-68 | stores admin, token, reward amount and lifetime, empties the list and zeroes both totals, keeps stored records, and establishes the invariant |
| RewardContract.EducationRewardContract.Participate | attendance-reward-contract/src/lib.rs:71-142 | an empty comment gives `InvalidComment`, an existing record gives `AlreadyParticipated`, a failed transfer gives `TokenTransferFailed`, and each of these writes nothing; otherwise the record holds the comment, `timestamp = now`, `expiry = now + days*86400`, the configured amount and no claim, the participant is appended, and the totals grow by 1 and by the amount |
| RewardContract.EducationRewardContract.GetParticipation | attendance-reward-contract/src/lib.rs:144-148 | returns the stored record exactly when there is one, and that record belongs to the asked address and has no reward claimed |
| RewardContract.EducationRewardContract.GetParticipants | attendance-reward-contract/src/lib.rs:150-155 | returns the participant list, whose length is the participant total |
| RewardContract.EducationRewardContract.GetTotalParticipants | attendance-reward-contract/src/lib.rs:157-162 | the participant total always equals the length of the participant list |
| RewardContract.EducationRewardContract.GetTotalRewardsDistributed | attendance-reward-contract/src/lib.rs:164-169 | the rewards total always equals the sum of the amounts transferred to the listed participants |
| RewardContract.EducationRewardContract.UpdateRewardAmount | attendance-reward-contract/src/lib.rs:171-185 | a caller other than the admin gets `NotAuthorized` and the amount is unchanged; the admin sets it to the new amount |
| RewardContract.EducationRewardContract.IsTokenExpired | attendance-reward-contract/src/lib.rs:187-194 | false without a record, otherwise exactly `now > expiry` (strict) |
| RewardContract.EducationRewardContract.CleanupExpiredTokens | attendance-reward-contract/src/lib.rs:196-216 | a caller other than the admin gets `NotAuthorized` and nothing changes; the admin's call removes exactly the listed expired records, returns their number and leaves the list, the totals, the configuration and all other records unchanged |
| RewardContract.CleanupThenRejoin | attendance-reward-contract/src/lib.rs:196-216 | after the admin's cleanup, a listed participant whose token had expired can participate again and gets a fresh record |
| AttendancePage.StatusOf | attendance-reward-frontend/app/page.tsx:51 | a stored record never displays as `not-participated`; it displays as `reward-claimed` exactly when its reward is claimed |
| AttendancePage.RecordKeyInjective | attendance-reward-frontend/app/page.tsx:98 | two addresses with the same `participation_<address>` key are the same address |
| AttendancePage.RecordKeyNonEmpty | attendance-reward-frontend/app/page.tsx:80-98 | a record written for a non-empty address (the only kind the submit handler writes) never lands under the empty address's key |
| AttendancePage.Trim | attendance-reward-frontend/app/page.tsx:80 | `trim()` yields the slice of the comment between its leading and trailing white space, which starts and ends with non-white-space, and is empty exactly when the comment is all white space |
| AttendancePage.TrimIdempotent | attendance-reward-frontend/app/page.tsx:93 | a comment stored trimmed is unchanged by trimming it again |
| AttendancePage.Home.constructor | attendance-reward-frontend/app/page.tsx:15-23 | the page starts with no wallet, `not-participated`, an empty comment and no messages, over what earlier visits of the page left in storage |
| AttendancePage.Home.CheckParticipationStatus | attendance-reward-frontend/app/page.tsx:44-57 | with a stored record the status is `reward-claimed` if its reward is claimed and `participated` otherwise, and the comment is loaded from it; without one status and comment are unchanged |
| AttendancePage.Home.ConnectWallet | attendance-reward-frontend/app/page.tsx:60-76 | offered while no address or the empty address is connected; a refused connection only shows an error and keeps the old address; a granted one stores the address, derives the status from its record and shows success; storage is untouched either way |
| AttendancePage.Home.EditComment | attendance-reward-frontend/app/page.tsx:246 | typing replaces the comment and keeps the invariant |
| AttendancePage.Home.HandleParticipation | attendance-reward-frontend/app/page.tsx:79-117 | without an address or with a blank comment only the error message changes; otherwise the record `{address, now, trim(comment), rewardClaimed: true}` is stored under the address's key and appended to the end of the history, which counts as empty if absent, the status becomes `reward-claimed` and the comment is cleared |
| AttendancePage.Home.HandleDisconnectWallet | attendance-reward-frontend/app/page.tsx:120-126 | no wallet, `not-participated`, empty comment and both messages cleared, with storage and history unchanged |
| AttendancePage.SubmitDisconnectReconnect | attendance-reward-frontend/app/page.tsx:79-126 | after a valid submission, disconnecting and reconnecting the same address shows `reward-claimed` and the trimmed comment, read back from storage |

## Left out

- Authorisation (`require_auth`) is not modelled. Callers are taken to be authorised, and only the explicit `caller != admin` checks are kept.
- The token contract is not modelled. `try_transfer` is reduced to its success or failure, and token balances are not tracked.
- The `expect` panics on missing configuration become preconditions. `Participate` needs `initialized` only on the path that reaches them. `UpdateRewardAmount` and `CleanupExpiredTokens` always need it.
- RewardContract.ExpiryTime: uses unbounded integers, so the u64 overflow of `now + days*86400` is not modelled (an overflow would abort the transaction).
- RewardContract.EducationRewardContract.Participate: the u32 participant total and the i128 rewards total are unbounded, so an overflow abort is not modelled. The reward amount may be negative, as in the source.
- RewardContract.EducationRewardContract.CleanupExpiredTokens: the u32 count is unbounded.
- The distinction between persistent and instance storage is kept only as separate fields. Storage lifetimes, rent and archival are not modelled.
- The error variants `ParticipationNotFound` and `TokenExpired` are declared in the source but never returned. They appear only in the error codes.
- Soroban's `String::len` counts bytes and the model counts characters. Both are zero exactly for the empty comment, which is the only check made.
- The wallet extension calls (`isConnected`, `setAllowed`, `getAddress`) are reduced to the address they yield or a refusal. The `useEffect` bootstrap on page load is the successful path of `ConnectWallet` without the messages, and is not modelled separately.
- `Date.now()` is the `now` parameter. JSON serialisation is not modelled, because records are stored as values.
- The `catch` blocks for storage and JSON errors are not modelled, because the model's storage does not fail.
- The message banners hold abstract messages, not the Turkish texts.
- The flags `isConnecting` and `isSubmitting` are not modelled. The `participationHistory` React state and `setRewardAmount` are never changed by any handler, so they are not modelled either. The reward amount is the constant 100.
- Rendering (JSX) is not modelled. This covers the 500-character text-box limit, disabled buttons and which controls are shown.
- AttendancePage.Home.ConnectWallet: requires that no address or the empty address is connected, the state in which the page shows the connect button (`!publicKey`).
- AttendancePage.Home.constructor: requires that storage holds no record under `participation_` (the empty address's key). The page never writes that key, because its submit handler rejects the empty address; a record put there by something else would leave a stale status after connecting from the empty address, which the model does not capture.
- The page's storage keys share one namespace: an address equal to `history` would make its record key collide with `participation_history`. The model keeps the history as a separate field.
- `attendance-reward-frontend/app/layout.tsx` holds only the page shell and metadata, so it is not modelled.
