/**
 * The background token refresher (server/services/tokenRefresher.js).
 *
 * Every hour, and once at start-up, it picks the social accounts whose token
 * expires within a day, tries to refresh each through the refresher
 * registered for its platform, and then alerts the owners of accounts whose
 * token expires within three days. The alert sweep skips an account that
 * already has a `token_expiring` alert from the last 24 hours; the
 * no-refresher path of `refreshAccount` alerts with no such check.
 *
 * The account and notification collections are sequences in collection
 * order. `account.save()` replaces the stored document with the same id.
 * `Notification.notifyTokenExpiring` is not part of this model's sources;
 * it is assumed to append one `token_expiring` notification for the account,
 * created now, with the account id as its reference. Every external call
 * (save, notification, queries, the provider refresher) is an oracle given
 * as a parameter: it either succeeds or throws an error with a message.
 */
module TokenRefresher {
  import opened Base
  import Timers

  const DayMs: int := 24 * Timers.HourMs
  /** Refresh accounts whose token expires within this look-ahead (line 4). */
  const RefreshWindowMs: int := DayMs
  /** Alert owners of accounts whose token expires within this look-ahead (line 5). */
  const ExpiryAlertWindowMs: int := 3 * DayMs
  /** An alert is not repeated while an earlier one is at most this old (line 97). */
  const AlertLookbackMs: int := DayMs

  const NoTokensMessage: string := "Refresher returned no tokens"
  const NotFoundMessage: string := "Social account not found"

  function NoRefresherMessage(platform: string): string
  {
    "No refresher configured for provider: " + platform
  }

  type AccountId = nat
  type UserId = nat

  datatype SyncStatus = Idle | Refreshing | Failed

  datatype Account = Account(
    id: AccountId,
    userId: UserId,
    platform: string,
    accessToken: string,
    refreshToken: Option<string>,
    tokenExpiresAt: Option<Millis>,
    isActive: bool,
    isRevoked: bool,
    syncStatus: SyncStatus,
    syncError: Option<string>,
    lastSyncAt: Option<Millis>)

  /** The notification type that expiry alerts carry and the look-back query filters on. */
  const TokenExpiring: string := "token_expiring"

  datatype Notification = Notification(
    userId: UserId,
    kind: string,
    referenceId: AccountId,
    platform: string,
    expiresAt: Option<Millis>,
    createdAt: Millis)

  /** The notification `notifyTokenExpiring` creates for an account at time `now`. */
  function ExpiryAlert(a: Account, now: Millis): Notification
  {
    Notification(a.userId, TokenExpiring, a.id, a.platform, a.tokenExpiresAt, now)
  }

  // ----- Selection (lines 63-83) -----

  /** The filter of both account queries: active, not revoked, with an expiry at or before `windowAt`. */
  predicate ExpiresBy(a: Account, windowAt: Millis)
  {
    a.isActive && !a.isRevoked && a.tokenExpiresAt.Some? && a.tokenExpiresAt.value <= windowAt
  }

  function SelectExpiring(accounts: seq<Account>, windowAt: Millis): (r: seq<Account>)
    ensures |r| <= |accounts| && IsSubsequence(r, accounts)
    ensures forall a :: a in r <==> a in accounts && ExpiresBy(a, windowAt)
  {
    if accounts == [] then []
    else
      var rest := SelectExpiring(accounts[1..], windowAt);
      assert accounts == [accounts[0]] + accounts[1..];
      if ExpiresBy(accounts[0], windowAt) then [accounts[0]] + rest else rest
  }

  /**
   * `findAccountsToRefresh`: the active, unrevoked accounts with an expiry no
   * later than a day from now, already expired ones included; an account
   * without an expiry is never selected.
   */
  function FindAccountsToRefresh(accounts: seq<Account>, now: Millis): (r: seq<Account>)
    ensures forall a :: a in r <==>
      a in accounts && a.isActive && !a.isRevoked && a.tokenExpiresAt.Some? && a.tokenExpiresAt.value <= now + RefreshWindowMs
  {
    SelectExpiring(accounts, now + RefreshWindowMs)
  }

  /** `findAccountsExpiringSoon`: the same filter with a three-day look-ahead. */
  function FindAccountsExpiringSoon(accounts: seq<Account>, now: Millis): (r: seq<Account>)
    ensures forall a :: a in r <==>
      a in accounts && a.isActive && !a.isRevoked && a.tokenExpiresAt.Some? && a.tokenExpiresAt.value <= now + ExpiryAlertWindowMs
  {
    SelectExpiring(accounts, now + ExpiryAlertWindowMs)
  }

  lemma {:induction false} NarrowerWindowIsSubsequence(accounts: seq<Account>, narrow: Millis, wide: Millis)
    requires narrow <= wide
    ensures IsSubsequence(SelectExpiring(accounts, narrow), SelectExpiring(accounts, wide))
  {
    if accounts != [] {
      NarrowerWindowIsSubsequence(accounts[1..], narrow, wide);
    }
  }

  /**
   * At a fixed instant every refresh candidate is also an alert candidate, and
   * the refresh candidates come in the same order as in the alert query.
   */
  lemma RefreshCandidatesAreAlertCandidates(accounts: seq<Account>, now: Millis)
    ensures forall a :: a in FindAccountsToRefresh(accounts, now) ==> a in FindAccountsExpiringSoon(accounts, now)
    ensures IsSubsequence(FindAccountsToRefresh(accounts, now), FindAccountsExpiringSoon(accounts, now))
  {
    NarrowerWindowIsSubsequence(accounts, now + RefreshWindowMs, now + ExpiryAlertWindowMs);
  }

  // ----- One account (lines 12-55) -----

  /** What a refresher's returned object carries; absent or empty fields are falsy in the source. */
  datatype Tokens = Tokens(accessToken: Option<string>, refreshToken: Option<string>, tokenExpiresAt: Option<Millis>)

  /** A provider refresher's answer: it throws, or it returns an object (`None` for a null or undefined result). */
  datatype Reply = Threw(message: string) | Returned(result: Option<Tokens>)

  type Refresher = Account -> Reply
  type Registry = map<string, Refresher>

  /** The registry as shipped (lines 8-10): no platform has a refresher. */
  const ProviderRefreshers: Registry := map[]

  /** `providerRefreshers[provider]` (line 14): falsy exactly when the platform has no entry. */
  function Lookup(registry: Registry, platform: string): (r: Option<Refresher>)
    ensures r.None? <==> platform !in registry
    ensures r.Some? ==> r.value == registry[platform]
  {
    if platform in registry then Some(registry[platform]) else None
  }

  /** JavaScript truthiness of an optional string: present and non-empty. */
  predicate Truthy(s: Option<string>)
  {
    s.Some? && s.value != ""
  }

  /** JavaScript truthiness of an optional timestamp: present and not zero. */
  predicate TruthyTime(t: Option<Millis>)
  {
    t.Some? && t.value != 0
  }

  /** `result && result.accessToken` (line 34). */
  predicate Renews(reply: Reply)
  {
    reply.Returned? && reply.result.Some? && Truthy(reply.result.value.accessToken)
  }

  /** The errors, if any, thrown by the calls of one `refreshAccount`: the save inside the try block, the notification, the save in the catch block. */
  datatype Effects = Effects(trySave: Option<string>, notify: Option<string>, catchSave: Option<string>)

  const AllSucceed: Effects := Effects(None, None, None)

  /** What one `refreshAccount` leaves behind: the document last saved, the notification created, and its return value or escaping error. */
  datatype Step = Step(saved: Option<Account>, alert: Option<Notification>, result: Result<bool>)

  function MarkFailed(a: Account, message: string): Account
  {
    a.(syncStatus := Failed, syncError := Some(message))
  }

  /** Lines 35-40: the new token material, with the sync fields reset. */
  function ApplyTokens(a: Account, t: Tokens, now: Millis): Account
    requires Truthy(t.accessToken)
  {
    a.(accessToken := t.accessToken.value,
       refreshToken := if Truthy(t.refreshToken) then t.refreshToken else a.refreshToken,
       tokenExpiresAt := if TruthyTime(t.tokenExpiresAt) then t.tokenExpiresAt else a.tokenExpiresAt,
       syncStatus := Idle,
       syncError := None,
       lastSyncAt := Some(now))
  }

  /**
   * The catch block (lines 49-54): the document, as the try block left it, is
   * marked failed with the error's message and saved once more; an error of
   * that save escapes. `persisted` is what the try block already saved.
   */
  function Catch(doc: Account, message: string, catchSave: Option<string>, persisted: Option<Account>): Step
  {
    if catchSave.None? then Step(Some(MarkFailed(doc, message)), None, Ok(false))
    else Step(persisted, None, Err(catchSave.value))
  }

  /** The fields `refreshAccount` never writes. */
  predicate SameOwnership(a: Account, b: Account)
  {
    a.id == b.id && a.userId == b.userId && a.platform == b.platform && a.isActive == b.isActive && a.isRevoked == b.isRevoked
  }

  /**
   * `refreshAccount(account)`. Whatever the path: only credential and sync
   * fields change; the result is true exactly when a refresher returned an
   * access token and that was saved; every other saved outcome is `failed`
   * with an error; a notification comes only from the no-refresher path; and
   * an error escapes only from the catch block's save.
   */
  function RefreshStep(account: Account, refresher: Option<Refresher>, effects: Effects, now: Millis): (s: Step)
    ensures s.saved.Some? ==> SameOwnership(s.saved.value, account)
    ensures s.result.Ok? ==> s.saved.Some?
    ensures s.result == Ok(true) <==> refresher.Some? && Renews(refresher.value(account)) && effects.trySave.None?
    ensures s.result == Ok(true) ==>
      s.saved.value.syncStatus == Idle && s.saved.value.syncError == None && s.saved.value.lastSyncAt == Some(now)
    ensures s.saved.Some? && s.result != Ok(true) ==> s.saved.value.syncStatus == Failed && s.saved.value.syncError.Some?
    ensures s.alert.Some? <==> refresher.None? && effects.trySave.None? && effects.notify.None?
    ensures s.alert.Some? ==> s.alert == Some(ExpiryAlert(account, now)) && s.result == Ok(false)
    ensures s.result.Err? ==> effects.catchSave == Some(s.result.message)
    ensures !(refresher.Some? && Renews(refresher.value(account))) && s.saved.Some? ==>
      s.saved.value.(syncStatus := account.syncStatus, syncError := account.syncError) == account
  {
    match refresher
    case None =>
      var doc := MarkFailed(account, NoRefresherMessage(account.platform));
      if effects.trySave.Some? then Catch(doc, effects.trySave.value, effects.catchSave, None)
      else if effects.notify.Some? then Catch(doc, effects.notify.value, effects.catchSave, Some(doc))
      else Step(Some(doc), Some(ExpiryAlert(doc, now)), Ok(false))
    case Some(refresh) =>
      var reply := refresh(account);
      if reply.Threw? then Catch(account, reply.message, effects.catchSave, None)
      else if Renews(reply) then
        var doc := ApplyTokens(account, reply.result.value, now);
        if effects.trySave.Some? then Catch(doc, effects.trySave.value, effects.catchSave, None)
        else Step(Some(doc), None, Ok(true))
      else
        var doc := MarkFailed(account, NoTokensMessage);
        if effects.trySave.Some? then Catch(doc, effects.trySave.value, effects.catchSave, None)
        else Step(Some(doc), None, Ok(false))
  }

  /** No refresher for the platform (lines 16-30): failed, the provider named, a notification created with no look-back for earlier ones, false. */
  lemma NoRefresherOutcome(account: Account, now: Millis)
    ensures RefreshStep(account, None, AllSucceed, now) ==
      Step(Some(account.(syncStatus := Failed, syncError := Some(NoRefresherMessage(account.platform)))),
           Some(ExpiryAlert(account, now)),
           Ok(false))
  {
  }

  /**
   * A refresher returning an access token (lines 34-42): the access token is
   * replaced, refresh token and expiry only when supplied, the account is idle
   * with no error and synced now, and the result is true. A refresh selection
   * made at any later instant whose window still ends before the new expiry
   * does not pick the account again.
   */
  lemma RenewedOutcome(account: Account, refresh: Refresher, now: Millis, later: Millis)
    requires Renews(refresh(account))
    ensures var t := refresh(account).result.value;
      var s := RefreshStep(account, Some(refresh), AllSucceed, now);
      s.result == Ok(true) && s.alert == None && s.saved.Some? &&
      s.saved.value.accessToken == t.accessToken.value &&
      s.saved.value.refreshToken == (if Truthy(t.refreshToken) then t.refreshToken else account.refreshToken) &&
      s.saved.value.tokenExpiresAt == (if TruthyTime(t.tokenExpiresAt) then t.tokenExpiresAt else account.tokenExpiresAt) &&
      s.saved.value.syncStatus == Idle && s.saved.value.syncError == None && s.saved.value.lastSyncAt == Some(now) &&
      (TruthyTime(t.tokenExpiresAt) && later + RefreshWindowMs < t.tokenExpiresAt.value ==>
         s.saved.value !in FindAccountsToRefresh([s.saved.value], later))
  {
  }

  /** A refresher returning no access token (lines 45-48): failed with a fixed message, tokens untouched, false. */
  lemma NoTokensOutcome(account: Account, refresh: Refresher, now: Millis)
    requires refresh(account).Returned? && !Renews(refresh(account))
    ensures RefreshStep(account, Some(refresh), AllSucceed, now) ==
      Step(Some(account.(syncStatus := Failed, syncError := Some(NoTokensMessage))), None, Ok(false))
  {
  }

  /** A refresher that throws (lines 49-54): failed with the thrown message, no notification, false. */
  lemma ThrewOutcome(account: Account, refresh: Refresher, now: Millis)
    requires refresh(account).Threw?
    ensures RefreshStep(account, Some(refresh), AllSucceed, now) ==
      Step(Some(account.(syncStatus := Failed, syncError := Some(refresh(account).message))), None, Ok(false))
  {
  }

  /**
   * A failed save of the new tokens (line 41) sends the updated document to the
   * catch block: when that save succeeds the new tokens are stored, but the
   * account is `failed` with the save's error and the result is false.
   */
  lemma FailedTokenSaveKeepsNewTokens(account: Account, refresh: Refresher, now: Millis, error: string)
    requires Renews(refresh(account))
    ensures var s := RefreshStep(account, Some(refresh), Effects(Some(error), None, None), now);
      s.result == Ok(false) &&
      s.saved == Some(MarkFailed(ApplyTokens(account, refresh(account).result.value, now), error))
  {
  }

  /** With the registry as shipped, no account is ever refreshed: every saved outcome is `failed`. */
  lemma ShippedRegistryNeverRenews(account: Account, effects: Effects, now: Millis)
    ensures var s := RefreshStep(account, Lookup(ProviderRefreshers, account.platform), effects, now);
      s.result != Ok(true) && (s.saved.Some? ==> s.saved.value.syncStatus == Failed)
  {
  }

  // ----- The store -----

  /** The account collection's `_id` invariant: no two stored accounts share an id. */
  predicate UniqueIds(accounts: seq<Account>)
  {
    forall i, j :: 0 <= i < j < |accounts| ==> accounts[i].id != accounts[j].id
  }

  /** Two collections hold documents with the same ids at the same positions. */
  predicate SameIds(xs: seq<Account>, ys: seq<Account>)
  {
    |xs| == |ys| && forall i :: 0 <= i < |xs| ==> xs[i].id == ys[i].id
  }

  datatype State = State(accounts: seq<Account>, notifications: seq<Notification>)

  /** `account.save()`: the stored document with the same id is replaced. */
  function Put(accounts: seq<Account>, doc: Account): (r: seq<Account>)
    ensures SameIds(r, accounts)
    ensures forall i :: 0 <= i < |r| && accounts[i].id == doc.id ==> r[i] == doc
    ensures forall i :: 0 <= i < |r| && accounts[i].id != doc.id ==> r[i] == accounts[i]
  {
    seq(|accounts|, i requires 0 <= i < |accounts| => if accounts[i].id == doc.id then doc else accounts[i])
  }

  /** A save keeps the `_id` invariant. */
  lemma PutKeepsUniqueIds(accounts: seq<Account>, doc: Account)
    requires UniqueIds(accounts)
    ensures UniqueIds(Put(accounts, doc))
  {
    var r := Put(accounts, doc);
    assert SameIds(r, accounts);
  }

  lemma PutTwice(accounts: seq<Account>, first: Account, second: Account)
    requires first.id == second.id
    ensures Put(Put(accounts, first), second) == Put(accounts, second)
  {
  }

  /** The store after one `refreshAccount`. */
  function Apply(st: State, s: Step): State
  {
    State(if s.saved.Some? then Put(st.accounts, s.saved.value) else st.accounts,
          if s.alert.Some? then st.notifications + [s.alert.value] else st.notifications)
  }

  // ----- Manual refresh (lines 57-61) -----

  function LowerChar(c: char): char
  {
    if 'A' <= c <= 'Z' then (c as int + 32) as char else c
  }

  /** `toLowerCase`, on the ASCII letters. */
  function Lower(s: string): (r: string)
    ensures |r| == |s| && !HasCapital(r)
    ensures forall i :: 0 <= i < |s| && !('A' <= s[i] <= 'Z') ==> r[i] == s[i]
    ensures forall i :: 0 <= i < |s| && 'A' <= s[i] <= 'Z' ==> r[i] as int == s[i] as int + 32
  {
    seq(|s|, i requires 0 <= i < |s| => LowerChar(s[i]))
  }

  predicate HasCapital(s: string)
  {
    exists i :: 0 <= i < |s| && 'A' <= s[i] <= 'Z'
  }

  /** A lowercased name has no capital letter, so lowercasing it again changes nothing. */
  lemma LowerIsLowercase(s: string)
    ensures !HasCapital(Lower(s))
    ensures Lower(Lower(s)) == Lower(s)
  {
  }

  predicate Owns(a: Account, userId: UserId, platform: string)
  {
    a.userId == userId && a.platform == platform
  }

  /**
   * `SocialAccount.findOne({ userId, platform })`: the position of the first
   * account of that user on that platform, active or not, revoked or not.
   */
  function FindOwned(accounts: seq<Account>, userId: UserId, platform: string): (r: Option<nat>)
    ensures r.Some? ==> r.value < |accounts| && Owns(accounts[r.value], userId, platform)
    ensures r.Some? ==> forall j :: 0 <= j < r.value ==> !Owns(accounts[j], userId, platform)
    ensures r.None? ==> forall a :: a in accounts ==> !Owns(a, userId, platform)
  {
    if accounts == [] then None
    else if Owns(accounts[0], userId, platform) then Some(0)
    else
      var rest := FindOwned(accounts[1..], userId, platform);
      assert accounts == [accounts[0]] + accounts[1..];
      if rest.None? then None else Some(rest.value + 1)
  }

  /** An account stored with a capital letter in its platform is never found by a manual refresh. */
  lemma CapitalisedPlatformNeverFound(accounts: seq<Account>, userId: UserId, provider: string, i: nat)
    requires i < |accounts| && HasCapital(accounts[i].platform)
    ensures FindOwned(accounts, userId, Lower(provider)) != Some(i)
  {
    LowerIsLowercase(provider);
  }

  /**
   * A requested provider that differs from a lowercase stored platform only
   * in the case of its letters finds an account of that user.
   */
  lemma CaseVariantFound(accounts: seq<Account>, userId: UserId, provider: string, k: nat)
    requires k < |accounts| && accounts[k].userId == userId
    requires !HasCapital(accounts[k].platform) && |provider| == |accounts[k].platform|
    requires forall i :: 0 <= i < |provider| ==>
      provider[i] == accounts[k].platform[i] || ('A' <= provider[i] <= 'Z' && provider[i] as int + 32 == accounts[k].platform[i] as int)
    ensures FindOwned(accounts, userId, Lower(provider)).Some?
  {
    assert Lower(provider) == accounts[k].platform;
    assert Owns(accounts[k], userId, Lower(provider));
  }

  datatype Manual = Manual(state: State, result: Result<bool>)

  /**
   * `refreshAccountForUserProvider`: the provider is lowercased before the
   * lookup; no matching account is an error that changes nothing and differs
   * from a false refresh; otherwise the first match is refreshed.
   */
  function ManualRefresh(st: State, userId: UserId, provider: string, registry: Registry, effects: Effects, now: Millis): (m: Manual)
    ensures FindOwned(st.accounts, userId, Lower(provider)).None? ==> m == Manual(st, Err(NotFoundMessage))
    ensures FindOwned(st.accounts, userId, Lower(provider)).Some? ==>
      var i := FindOwned(st.accounts, userId, Lower(provider)).value;
      Owns(st.accounts[i], userId, Lower(provider)) &&
      (forall j :: 0 <= j < i ==> !Owns(st.accounts[j], userId, Lower(provider))) &&
      var s := RefreshStep(st.accounts[i], Lookup(registry, st.accounts[i].platform), effects, now);
      m == Manual(Apply(st, s), s.result)
  {
    var found := FindOwned(st.accounts, userId, Lower(provider));
    if found.None? then Manual(st, Err(NotFoundMessage))
    else
      var account := st.accounts[found.value];
      var s := RefreshStep(account, Lookup(registry, account.platform), effects, now);
      Manual(Apply(st, s), s.result)
  }

  // ----- Expiry alerts (lines 86-113) -----

  /** The filter of the look-back query (lines 93-98): an alert for this account, to this user, created within the last day. */
  predicate AlertMatches(n: Notification, a: Account, now: Millis)
  {
    n.userId == a.userId && n.kind == TokenExpiring && n.referenceId == a.id && n.createdAt >= now - AlertLookbackMs
  }

  /** Some stored notification passes the look-back filter. */
  predicate RecentlyAlerted(notifications: seq<Notification>, a: Account, now: Millis)
  {
    exists n :: n in notifications && AlertMatches(n, a, now)
  }

  /**
   * `Notification.findOne` of lines 93-98: the first stored notification that
   * passes the look-back filter, or none exactly when no notification does.
   */
  function FindRecentAlert(notifications: seq<Notification>, a: Account, now: Millis): (r: Option<Notification>)
    ensures r.Some? ==> r.value in notifications && AlertMatches(r.value, a, now)
    ensures r.None? <==> !RecentlyAlerted(notifications, a, now)
  {
    if notifications == [] then None
    else if AlertMatches(notifications[0], a, now) then Some(notifications[0])
    else
      var rest := FindRecentAlert(notifications[1..], a, now);
      assert notifications == [notifications[0]] + notifications[1..];
      rest
  }

  /** The errors the external calls of one alert sweep throw: the candidate query, and per account the look-back query and the notification. */
  datatype AlertFaults = AlertFaults(queryError: Option<string>, lookupErrors: map<AccountId, string>, notifyErrors: map<AccountId, string>)

  const NoAlertFaults: AlertFaults := AlertFaults(None, map[], map[])

  /**
   * The loop of lines 91-109; the log only grows. The first error ends the
   * loop: the catch of line 110 encloses the whole loop.
   */
  function AlertLoop(notifications: seq<Notification>, candidates: seq<Account>, now: Millis, faults: AlertFaults): (r: seq<Notification>)
    ensures |notifications| <= |r| && r[..|notifications|] == notifications
    decreases |candidates|
  {
    if candidates == [] then notifications
    else
      var c := candidates[0];
      if c.id in faults.lookupErrors then notifications
      else if RecentlyAlerted(notifications, c, now) then AlertLoop(notifications, candidates[1..], now, faults)
      else if c.id in faults.notifyErrors then notifications
      else AlertLoop(notifications + [ExpiryAlert(c, now)], candidates[1..], now, faults)
  }

  /** Every notification the alert loop adds is an alert created now for one of the candidates. */
  lemma {:induction false} AlertLoopAlertsOnlyCandidates(notifications: seq<Notification>, candidates: seq<Account>, now: Millis, faults: AlertFaults)
    ensures var r := AlertLoop(notifications, candidates, now, faults);
      forall j :: |notifications| <= j < |r| ==> exists c :: c in candidates && r[j] == ExpiryAlert(c, now)
    decreases |candidates|
  {
    if candidates != [] {
      var c := candidates[0];
      var r := AlertLoop(notifications, candidates, now, faults);
      if c.id !in faults.lookupErrors && (RecentlyAlerted(notifications, c, now) || c.id !in faults.notifyErrors) {
        var next := if RecentlyAlerted(notifications, c, now) then notifications else notifications + [ExpiryAlert(c, now)];
        assert r == AlertLoop(next, candidates[1..], now, faults);
        AlertLoopAlertsOnlyCandidates(next, candidates[1..], now, faults);
        forall j | |notifications| <= j < |r| ensures exists c' :: c' in candidates && r[j] == ExpiryAlert(c', now) {
          if j < |next| {
            assert r[j] == next[j] == ExpiryAlert(c, now);
          } else {
            var c' :| c' in candidates[1..] && r[j] == ExpiryAlert(c', now);
            assert c' in candidates;
          }
        }
      }
    }
  }

  /** Every alert in `r` past the first `|before|` entries is for an account that had no recent alert before it. */
  ghost predicate OnlyUnalerted(before: seq<Notification>, r: seq<Notification>, now: Millis)
  {
    forall j, c :: |before| <= j < |r| && r[j] == ExpiryAlert(c, now) ==> !RecentlyAlerted(r[..j], c, now)
  }

  /**
   * The guard of line 100: whenever the loop adds an alert that could stand
   * for account `c`, no notification before it was a recent alert for `c`.
   */
  lemma {:induction false} AlertLoopAlertsOnlyUnalerted(notifications: seq<Notification>, candidates: seq<Account>, now: Millis, faults: AlertFaults)
    ensures OnlyUnalerted(notifications, AlertLoop(notifications, candidates, now, faults), now)
    decreases |candidates|
  {
    if candidates != [] {
      var c0 := candidates[0];
      var r := AlertLoop(notifications, candidates, now, faults);
      if c0.id !in faults.lookupErrors && (RecentlyAlerted(notifications, c0, now) || c0.id !in faults.notifyErrors) {
        var next := if RecentlyAlerted(notifications, c0, now) then notifications else notifications + [ExpiryAlert(c0, now)];
        assert r == AlertLoop(next, candidates[1..], now, faults);
        AlertLoopAlertsOnlyUnalerted(next, candidates[1..], now, faults);
        forall j, c | |notifications| <= j < |next| && r[j] == ExpiryAlert(c, now)
          ensures !RecentlyAlerted(r[..j], c, now)
        {
          assert r[..j] == next[..j] == notifications;
          assert r[j] == ExpiryAlert(c0, now);
          forall n | n in notifications ensures !AlertMatches(n, c, now) {
            assert !AlertMatches(n, c0, now);
          }
        }
      }
    }
  }

  /** An account alerted within the last day gets no new alert from the loop. */
  lemma NoAlertForRecentlyAlerted(notifications: seq<Notification>, candidates: seq<Account>, now: Millis, faults: AlertFaults, a: Account)
    requires RecentlyAlerted(notifications, a, now)
    ensures var r := AlertLoop(notifications, candidates, now, faults);
      forall j :: |notifications| <= j < |r| ==> r[j] != ExpiryAlert(a, now)
  {
    var r := AlertLoop(notifications, candidates, now, faults);
    AlertLoopAlertsOnlyUnalerted(notifications, candidates, now, faults);
    forall j | |notifications| <= j < |r| ensures RecentlyAlerted(r[..j], a, now) {
      assert r[..j] == notifications + r[|notifications|..j];
      StillRecentlyAlerted(notifications, r[|notifications|..j], a, now);
    }
  }

  /** One sweep alerts each account at most once: no two added alerts name the same user and account. */
  lemma AlertLoopAlertsEachAccountOnce(notifications: seq<Notification>, candidates: seq<Account>, now: Millis, faults: AlertFaults)
    ensures var r := AlertLoop(notifications, candidates, now, faults);
      forall i, j :: |notifications| <= i < j < |r| ==> r[i].userId != r[j].userId || r[i].referenceId != r[j].referenceId
  {
    var r := AlertLoop(notifications, candidates, now, faults);
    AlertLoopAlertsOnlyCandidates(notifications, candidates, now, faults);
    AlertLoopAlertsOnlyUnalerted(notifications, candidates, now, faults);
    forall i, j | |notifications| <= i < j < |r|
      ensures r[i].userId != r[j].userId || r[i].referenceId != r[j].referenceId
    {
      var c :| c in candidates && r[j] == ExpiryAlert(c, now);
      var c' :| c' in candidates && r[i] == ExpiryAlert(c', now);
      assert r[i] in r[..j];
      assert !AlertMatches(r[i], c, now);
    }
  }

  /**
   * `sendExpiryAlerts`: never throws; an error of the candidate query creates
   * nothing; otherwise alerts are only appended, and none is added for an
   * account that already has one from the last day.
   */
  function AlertSweep(accounts: seq<Account>, notifications: seq<Notification>, now: Millis, faults: AlertFaults): (r: seq<Notification>)
    ensures faults.queryError.Some? ==> r == notifications
    ensures |notifications| <= |r| && r[..|notifications|] == notifications
    ensures OnlyUnalerted(notifications, r, now)
  {
    if faults.queryError.Some? then notifications
    else
      var candidates := FindAccountsExpiringSoon(accounts, now);
      AlertLoopAlertsOnlyUnalerted(notifications, candidates, now, faults);
      AlertLoop(notifications, candidates, now, faults)
  }

  lemma StillRecentlyAlerted(notifications: seq<Notification>, more: seq<Notification>, a: Account, now: Millis)
    requires RecentlyAlerted(notifications, a, now)
    ensures RecentlyAlerted(notifications + more, a, now)
  {
    var n :| n in notifications && AlertMatches(n, a, now);
    assert n in notifications + more;
  }

  /** The alert loop with no errors leaves the first candidate recently alerted. */
  lemma FirstCandidateAlerted(notifications: seq<Notification>, candidates: seq<Account>, now: Millis)
    requires candidates != []
    ensures RecentlyAlerted(AlertLoop(notifications, candidates, now, NoAlertFaults), candidates[0], now)
  {
    var c := candidates[0];
    var next := if RecentlyAlerted(notifications, c, now) then notifications else notifications + [ExpiryAlert(c, now)];
    assert RecentlyAlerted(next, c, now) by {
      if !RecentlyAlerted(notifications, c, now) {
        assert ExpiryAlert(c, now) in next;
      }
    }
    var r := AlertLoop(next, candidates[1..], now, NoAlertFaults);
    assert r == next + r[|next|..];
    StillRecentlyAlerted(next, r[|next|..], c, now);
  }

  /** After a sweep with no errors, every candidate has a recent alert. */
  lemma {:induction false} SweepCoversCandidates(notifications: seq<Notification>, candidates: seq<Account>, now: Millis)
    ensures forall c :: c in candidates ==> RecentlyAlerted(AlertLoop(notifications, candidates, now, NoAlertFaults), c, now)
    decreases |candidates|
  {
    if candidates != [] {
      var c := candidates[0];
      var next := if RecentlyAlerted(notifications, c, now) then notifications else notifications + [ExpiryAlert(c, now)];
      assert AlertLoop(notifications, candidates, now, NoAlertFaults) == AlertLoop(next, candidates[1..], now, NoAlertFaults);
      SweepCoversCandidates(next, candidates[1..], now);
      FirstCandidateAlerted(notifications, candidates, now);
      assert candidates == [c] + candidates[1..];
    }
  }

  /** Candidates that all have a recent alert get none, whatever errors occur. */
  lemma {:induction false} SweepOfAlertedIsIdle(notifications: seq<Notification>, candidates: seq<Account>, now: Millis, faults: AlertFaults)
    requires forall c :: c in candidates ==> RecentlyAlerted(notifications, c, now)
    ensures AlertLoop(notifications, candidates, now, faults) == notifications
    decreases |candidates|
  {
    if candidates != [] {
      assert candidates[0] in candidates;
      forall c | c in candidates[1..] ensures RecentlyAlerted(notifications, c, now) {
        assert c in candidates;
      }
      SweepOfAlertedIsIdle(notifications, candidates[1..], now, faults);
    }
  }

  /** Sending alerts twice at the same instant: the second sweep creates nothing. */
  lemma AlertSweepIsIdempotent(accounts: seq<Account>, notifications: seq<Notification>, now: Millis, faults: AlertFaults)
    ensures var once := AlertSweep(accounts, notifications, now, NoAlertFaults);
      AlertSweep(accounts, once, now, faults) == once
  {
    var candidates := FindAccountsExpiringSoon(accounts, now);
    SweepCoversCandidates(notifications, candidates, now);
    SweepOfAlertedIsIdle(AlertSweep(accounts, notifications, now, NoAlertFaults), candidates, now, faults);
  }

  /** An error looking up candidate `k` ends the sweep there: later candidates get no alert. */
  lemma {:induction false} LookupErrorStopsSweep(notifications: seq<Notification>, candidates: seq<Account>, now: Millis, faults: AlertFaults, k: nat)
    requires k < |candidates| && candidates[k].id in faults.lookupErrors
    ensures AlertLoop(notifications, candidates, now, faults) == AlertLoop(notifications, candidates[..k], now, faults)
    decreases k
  {
    if k > 0 {
      var c := candidates[0];
      assert candidates[..k][1..] == candidates[1..][..k - 1];
      if c.id !in faults.lookupErrors && !RecentlyAlerted(notifications, c, now) && c.id !in faults.notifyErrors {
        LookupErrorStopsSweep(notifications + [ExpiryAlert(c, now)], candidates[1..], now, faults, k - 1);
      } else {
        LookupErrorStopsSweep(notifications, candidates[1..], now, faults, k - 1);
      }
    } else {
      assert candidates == [candidates[0]] + candidates[1..];
    }
  }

  /**
   * A failing `notifyTokenExpiring` for candidate `k` (reached with no recent
   * alert) ends the sweep there: later candidates get no alert.
   */
  lemma {:induction false} NotifyErrorStopsSweep(notifications: seq<Notification>, candidates: seq<Account>, now: Millis, faults: AlertFaults, k: nat)
    requires k < |candidates| && candidates[k].id !in faults.lookupErrors && candidates[k].id in faults.notifyErrors
    requires !RecentlyAlerted(AlertLoop(notifications, candidates[..k], now, faults), candidates[k], now)
    ensures AlertLoop(notifications, candidates, now, faults) == AlertLoop(notifications, candidates[..k], now, faults)
    decreases k
  {
    if k > 0 {
      var c := candidates[0];
      assert candidates[..k][1..] == candidates[1..][..k - 1];
      if c.id !in faults.lookupErrors && (RecentlyAlerted(notifications, c, now) || c.id !in faults.notifyErrors) {
        var next := if RecentlyAlerted(notifications, c, now) then notifications else notifications + [ExpiryAlert(c, now)];
        NotifyErrorStopsSweep(next, candidates[1..], now, faults, k - 1);
      }
    }
  }

  // ----- The hourly cycle (lines 128-143) -----

  function EffectsFor(effects: map<AccountId, Effects>, id: AccountId): Effects
  {
    if id in effects then effects[id] else AllSucceed
  }

  datatype Batch = Batch(state: State, escaped: Option<string>)

  /** The refresh loop of lines 133-135: an error escaping `refreshAccount` skips the remaining candidates. */
  function RefreshBatch(st: State, candidates: seq<Account>, registry: Registry, effects: map<AccountId, Effects>, now: Millis): (b: Batch)
    ensures SameIds(b.state.accounts, st.accounts)
    ensures |st.notifications| <= |b.state.notifications| && b.state.notifications[..|st.notifications|] == st.notifications
    ensures candidates == [] ==> b == Batch(st, None)
    decreases |candidates|
  {
    if candidates == [] then Batch(st, None)
    else
      var c := candidates[0];
      var s := RefreshStep(c, Lookup(registry, c.platform), EffectsFor(effects, c.id), now);
      if s.result.Err? then Batch(Apply(st, s), Some(s.result.message))
      else RefreshBatch(Apply(st, s), candidates[1..], registry, effects, now)
  }

  /** The errors of one cycle: the refresh query, each `refreshAccount`'s calls, and the alert sweep's calls. */
  datatype CycleFaults = CycleFaults(queryError: Option<string>, refresh: map<AccountId, Effects>, alerts: AlertFaults)

  const NoCycleFaults: CycleFaults := CycleFaults(None, map[], NoAlertFaults)

  /**
   * The hourly job body (lines 128-143), also run once at start-up (lines
   * 146-156): refresh the candidates, then send alerts; a query error or an
   * error escaping a refresh ends the cycle there, and nothing propagates.
   */
  function Cycle(st: State, registry: Registry, faults: CycleFaults, now: Millis): (r: State)
    ensures SameIds(r.accounts, st.accounts)
    ensures faults.queryError.Some? ==> r == st
    ensures faults.queryError.None? ==>
      var b := RefreshBatch(st, FindAccountsToRefresh(st.accounts, now), registry, faults.refresh, now);
      (b.escaped.Some? ==> r == b.state) &&
      (b.escaped.None? ==> r == State(b.state.accounts, AlertSweep(b.state.accounts, b.state.notifications, now, faults.alerts)))
  {
    if faults.queryError.Some? then st
    else
      var b := RefreshBatch(st, FindAccountsToRefresh(st.accounts, now), registry, faults.refresh, now);
      if b.escaped.Some? then b.state
      else State(b.state.accounts, AlertSweep(b.state.accounts, b.state.notifications, now, faults.alerts))
  }

  function Ids(accounts: seq<Account>): set<AccountId>
  {
    set a | a in accounts :: a.id
  }

  /** Accounts that are not candidates are never written by the refresh loop. */
  lemma {:induction false} RefreshBatchKeepsOthers(st: State, candidates: seq<Account>, registry: Registry, effects: map<AccountId, Effects>, now: Millis)
    ensures var b := RefreshBatch(st, candidates, registry, effects, now);
      forall i :: 0 <= i < |st.accounts| && st.accounts[i].id !in Ids(candidates) ==> b.state.accounts[i] == st.accounts[i]
    decreases |candidates|
  {
    if candidates != [] {
      var c := candidates[0];
      var s := RefreshStep(c, Lookup(registry, c.platform), EffectsFor(effects, c.id), now);
      RefreshBatchKeepsOthers(Apply(st, s), candidates[1..], registry, effects, now);
      assert candidates == [c] + candidates[1..];
      assert Ids(candidates) == {c.id} + Ids(candidates[1..]);
    }
  }

  /**
   * An error escaping the refresh of candidate `k` (the catch block's save of
   * line 52) ends the batch there: later candidates are neither refreshed nor
   * alerted.
   */
  lemma {:induction false} EscapeEndsBatch(st: State, candidates: seq<Account>, registry: Registry, effects: map<AccountId, Effects>, now: Millis, k: nat)
    requires k < |candidates|
    requires RefreshStep(candidates[k], Lookup(registry, candidates[k].platform), EffectsFor(effects, candidates[k].id), now).result.Err?
    ensures RefreshBatch(st, candidates, registry, effects, now) == RefreshBatch(st, candidates[..k + 1], registry, effects, now)
    ensures RefreshBatch(st, candidates, registry, effects, now).escaped.Some?
    decreases k
  {
    var c := candidates[0];
    var s := RefreshStep(c, Lookup(registry, c.platform), EffectsFor(effects, c.id), now);
    if k > 0 && s.result.Ok? {
      assert candidates[..k + 1][1..] == candidates[1..][..k];
      EscapeEndsBatch(Apply(st, s), candidates[1..], registry, effects, now, k - 1);
    }
  }

  /** A selection from a collection with unique ids has unique ids. */
  lemma {:induction false} SelectKeepsUniqueIds(accounts: seq<Account>, windowAt: Millis)
    requires UniqueIds(accounts)
    ensures UniqueIds(SelectExpiring(accounts, windowAt))
  {
    if accounts != [] {
      SelectKeepsUniqueIds(accounts[1..], windowAt);
      var rest := SelectExpiring(accounts[1..], windowAt);
      forall x | x in rest ensures x.id != accounts[0].id {
        var m :| 0 <= m < |accounts[1..]| && accounts[1..][m] == x;
        assert accounts[m + 1] == x;
      }
    }
  }

  /**
   * Per-candidate isolation: after a batch from which no error escaped, every
   * stored document with a candidate's id is exactly the document that
   * candidate's own refresh step saved, whatever happened to the others.
   */
  lemma {:induction false} RefreshBatchWritesEachCandidate(st: State, candidates: seq<Account>, registry: Registry, effects: map<AccountId, Effects>, now: Millis)
    requires UniqueIds(candidates)
    ensures var b := RefreshBatch(st, candidates, registry, effects, now);
      b.escaped.None? ==>
        forall k, i :: 0 <= k < |candidates| && 0 <= i < |b.state.accounts| && b.state.accounts[i].id == candidates[k].id ==>
          RefreshStep(candidates[k], Lookup(registry, candidates[k].platform), EffectsFor(effects, candidates[k].id), now).saved == Some(b.state.accounts[i])
    decreases |candidates|
  {
    if candidates != [] {
      var c := candidates[0];
      var s := RefreshStep(c, Lookup(registry, c.platform), EffectsFor(effects, c.id), now);
      if s.result.Ok? {
        var rest := candidates[1..];
        var mid := Apply(st, s);
        var b := RefreshBatch(mid, rest, registry, effects, now);
        RefreshBatchWritesEachCandidate(mid, rest, registry, effects, now);
        RefreshBatchKeepsOthers(mid, rest, registry, effects, now);
        forall x | x in rest ensures x.id != c.id {
          var m :| 0 <= m < |rest| && rest[m] == x;
          assert candidates[m + 1] == x;
        }
        forall k, i | 0 <= k < |candidates| && 0 <= i < |b.state.accounts| && b.state.accounts[i].id == candidates[k].id && b.escaped.None?
          ensures RefreshStep(candidates[k], Lookup(registry, candidates[k].platform), EffectsFor(effects, candidates[k].id), now).saved == Some(b.state.accounts[i])
        {
          if k == 0 {
            assert mid.accounts[i].id == c.id;
            assert c.id !in Ids(rest);
            assert b.state.accounts[i] == mid.accounts[i];
            assert st.accounts[i].id == s.saved.value.id;
          } else {
            assert candidates[k] == rest[k - 1];
          }
        }
      }
    }
  }

  /**
   * A cycle that reaches the alert sweep has stored, for every refresh
   * candidate, the document that candidate's own refresh step saved.
   */
  lemma CycleWritesEachCandidate(st: State, registry: Registry, faults: CycleFaults, now: Millis)
    requires UniqueIds(st.accounts)
    ensures var candidates := FindAccountsToRefresh(st.accounts, now);
      var r := Cycle(st, registry, faults, now);
      faults.queryError.None? && RefreshBatch(st, candidates, registry, faults.refresh, now).escaped.None? ==>
        forall k, i :: 0 <= k < |candidates| && 0 <= i < |r.accounts| && r.accounts[i].id == candidates[k].id ==>
          RefreshStep(candidates[k], Lookup(registry, candidates[k].platform), EffectsFor(faults.refresh, candidates[k].id), now).saved == Some(r.accounts[i])
  {
    SelectKeepsUniqueIds(st.accounts, now + RefreshWindowMs);
    RefreshBatchWritesEachCandidate(st, FindAccountsToRefresh(st.accounts, now), registry, faults.refresh, now);
  }

  function AlertsFor(candidates: seq<Account>, now: Millis): seq<Notification>
  {
    if candidates == [] then [] else [ExpiryAlert(candidates[0], now)] + AlertsFor(candidates[1..], now)
  }

  /**
   * With the registry as shipped and no errors, every refresh candidate gets a
   * fresh alert in the refresh loop whatever alerts already exist: this path
   * has no look-back, so each hourly cycle alerts again.
   */
  lemma {:induction false} ShippedRegistryAlertsEveryCandidate(st: State, candidates: seq<Account>, now: Millis)
    ensures var b := RefreshBatch(st, candidates, ProviderRefreshers, map[], now);
      b.escaped == None && b.state.notifications == st.notifications + AlertsFor(candidates, now)
    decreases |candidates|
  {
    if candidates != [] {
      var c := candidates[0];
      var s := RefreshStep(c, Lookup(ProviderRefreshers, c.platform), AllSucceed, now);
      assert s.alert == Some(ExpiryAlert(c, now));
      ShippedRegistryAlertsEveryCandidate(Apply(st, s), candidates[1..], now);
    }
  }

  /** The collections the refresher reads and writes. */
  class AccountStore {
    var accounts: seq<Account>
    var notifications: seq<Notification>

    /** The account collection's `_id` invariant. */
    ghost predicate Valid()
      reads this
    {
      UniqueIds(accounts)
    }

    constructor (accounts: seq<Account>, notifications: seq<Notification>)
      requires UniqueIds(accounts)
      ensures Valid() && this.accounts == accounts && this.notifications == notifications
    {
      this.accounts := accounts;
      this.notifications := notifications;
    }

    function Snapshot(): State
      reads this
    {
      State(accounts, notifications)
    }

    /** `account.save()`: throws, or replaces the stored document with the same id. */
    method Save(doc: Account, error: Option<string>) returns (thrown: Option<string>)
      requires Valid()
      modifies this
      ensures Valid()
      ensures thrown == error
      ensures accounts == (if error.None? then Put(old(accounts), doc) else old(accounts))
      ensures notifications == old(notifications)
    {
      thrown := error;
      if error.None? {
        PutKeepsUniqueIds(accounts, doc);
        accounts := Put(accounts, doc);
      }
    }

    /** `Notification.notifyTokenExpiring`: throws, or appends one alert for the account. */
    method NotifyTokenExpiring(account: Account, now: Millis, error: Option<string>) returns (thrown: Option<string>)
      modifies this
      ensures thrown == error
      ensures notifications == (if error.None? then old(notifications) + [ExpiryAlert(account, now)] else old(notifications))
      ensures accounts == old(accounts)
    {
      thrown := error;
      if error.None? {
        notifications := notifications + [ExpiryAlert(account, now)];
      }
    }

    /** `refreshAccount` (lines 12-55): the document is updated in place and saved; `Err` is an error escaping the catch block. */
    method RefreshAccount(account: Account, registry: Registry, effects: Effects, now: Millis) returns (r: Result<bool>)
      requires Valid()
      modifies this
      ensures Valid()
      ensures var s := RefreshStep(account, Lookup(registry, account.platform), effects, now);
        Snapshot() == Apply(old(Snapshot()), s) && r == s.result
    {
      var doc := account;
      var refresher := Lookup(registry, doc.platform);
      var thrown: Option<string>;
      if refresher.None? {
        doc := doc.(syncStatus := Failed, syncError := Some(NoRefresherMessage(doc.platform)));
        thrown := Save(doc, effects.trySave);
        if thrown.None? {
          thrown := NotifyTokenExpiring(doc, now, effects.notify);
          if thrown.None? {
            return Ok(false);
          }
          PutTwice(old(accounts), doc, MarkFailed(doc, thrown.value));
        }
      } else {
        var reply := refresher.value(doc);
        if reply.Threw? {
          thrown := Some(reply.message);
        } else if reply.result.Some? && Truthy(reply.result.value.accessToken) {
          var tokens := reply.result.value;
          doc := doc.(accessToken := tokens.accessToken.value);
          if Truthy(tokens.refreshToken) {
            doc := doc.(refreshToken := tokens.refreshToken);
          }
          if TruthyTime(tokens.tokenExpiresAt) {
            doc := doc.(tokenExpiresAt := tokens.tokenExpiresAt);
          }
          doc := doc.(syncStatus := Idle, syncError := None, lastSyncAt := Some(now));
          thrown := Save(doc, effects.trySave);
          if thrown.None? {
            return Ok(true);
          }
        } else {
          doc := doc.(syncStatus := Failed, syncError := Some(NoTokensMessage));
          thrown := Save(doc, effects.trySave);
          if thrown.None? {
            return Ok(false);
          }
        }
      }
      r := SaveFailure(doc, thrown.value, effects.catchSave);
    }

    /** The catch block (lines 49-54): the document is marked failed with the error's message and saved once more; an error of that save escapes. */
    method SaveFailure(doc: Account, message: string, catchSave: Option<string>) returns (r: Result<bool>)
      requires Valid()
      modifies this
      ensures Valid()
      ensures r == (if catchSave.None? then Ok(false) else Err(catchSave.value))
      ensures accounts == (if catchSave.None? then Put(old(accounts), MarkFailed(doc, message)) else old(accounts))
      ensures notifications == old(notifications)
    {
      var failed := doc.(syncStatus := Failed, syncError := Some(message));
      var escaped := Save(failed, catchSave);
      if escaped.Some? {
        return Err(escaped.value);
      }
      return Ok(false);
    }

    /** `refreshAccountForUserProvider` (lines 57-61). */
    method RefreshAccountForUserProvider(userId: UserId, provider: string, registry: Registry, effects: Effects, now: Millis)
      returns (r: Result<bool>)
      requires Valid()
      modifies this
      ensures Valid()
      ensures Manual(Snapshot(), r) == ManualRefresh(old(Snapshot()), userId, provider, registry, effects, now)
    {
      var found := FindOwned(accounts, userId, Lower(provider));
      if found.None? {
        return Err(NotFoundMessage);
      }
      r := RefreshAccount(accounts[found.value], registry, effects, now);
    }

    /** `sendExpiryAlerts` (lines 86-113); every error is swallowed. */
    method SendExpiryAlerts(now: Millis, faults: AlertFaults)
      requires Valid()
      modifies this
      ensures Valid()
      ensures accounts == old(accounts)
      ensures notifications == AlertSweep(old(accounts), old(notifications), now, faults)
    {
      if faults.queryError.Some? {
        return;
      }
      var candidates := FindAccountsExpiringSoon(accounts, now);
      ghost var start := notifications;
      for k := 0 to |candidates|
        invariant accounts == old(accounts)
        invariant AlertLoop(notifications, candidates[k..], now, faults) == AlertLoop(start, candidates, now, faults)
      {
        var c := candidates[k];
        assert candidates[k..][1..] == candidates[k + 1..];
        if c.id in faults.lookupErrors {
          return;
        }
        var recent := FindRecentAlert(notifications, c, now);
        if recent.None? {
          var thrown := NotifyTokenExpiring(c, now, ErrorFor(faults.notifyErrors, c.id));
          if thrown.Some? {
            return;
          }
        }
      }
      assert candidates[|candidates|..] == [];
    }

    /** The refresh loop of lines 133-135; returns the error that escaped, if one did. */
    method RefreshCandidates(candidates: seq<Account>, registry: Registry, effects: map<AccountId, Effects>, now: Millis)
      returns (escaped: Option<string>)
      requires Valid()
      modifies this
      ensures Valid()
      ensures Batch(Snapshot(), escaped) == RefreshBatch(old(Snapshot()), candidates, registry, effects, now)
    {
      ghost var start := Snapshot();
      for k := 0 to |candidates|
        invariant RefreshBatch(Snapshot(), candidates[k..], registry, effects, now) == RefreshBatch(start, candidates, registry, effects, now)
      {
        var c := candidates[k];
        assert candidates[k..][1..] == candidates[k + 1..];
        var r := RefreshAccount(c, registry, EffectsFor(effects, c.id), now);
        if r.Err? {
          return Some(r.message);
        }
      }
      assert candidates[|candidates|..] == [];
      return None;
    }

    /** One run of the hourly job body (lines 128-143). */
    method RunCycle(registry: Registry, faults: CycleFaults, now: Millis)
      requires Valid()
      modifies this
      ensures Valid()
      ensures Snapshot() == Cycle(old(Snapshot()), registry, faults, now)
    {
      if faults.queryError.Some? {
        return;
      }
      var candidates := FindAccountsToRefresh(accounts, now);
      var escaped := RefreshCandidates(candidates, registry, faults.refresh, now);
      if escaped.Some? {
        return;
      }
      SendExpiryAlerts(now, faults.alerts);
    }
  }

  /** `startTokenRefresher` / `stopTokenRefresher` and the module-level `job` handle they share. */
  class RefresherService {
    var job: Timers.Job?

    constructor ()
      ensures job == null
    {
      job := null;
    }

    /**
     * Start is idempotent: with a job already set it returns that job, stopped
     * or not, and runs nothing. Otherwise it creates an hourly job and runs one
     * cycle straight away.
     */
    method Start(store: AccountStore, registry: Registry, faults: CycleFaults, now: Millis) returns (j: Timers.Job)
      requires store.Valid()
      modifies this, store
      ensures store.Valid()
      ensures old(job) != null ==> j == old(job) && job == j && j.active == old(j.active) && store.Snapshot() == old(store.Snapshot())
      ensures old(job) == null ==> fresh(j) && job == j && j.active && j.periodMs == Timers.HourMs
      ensures old(job) == null ==> store.Snapshot() == Cycle(old(store.Snapshot()), registry, faults, now)
    {
      if job != null {
        return job;
      }
      j := new Timers.Job(Timers.HourMs);
      job := j;
      store.RunCycle(registry, faults, now);
    }

    /** `stopTokenRefresher`: stops the job but leaves the handle set, so a later Start returns the stopped job. */
    method Stop()
      modifies job
      ensures job == old(job)
      ensures job != null ==> !job.active
    {
      if job != null {
        job.Stop();
      }
    }

    /** One firing of the hourly interval: a cycle runs only while the job is active. */
    method Tick(store: AccountStore, registry: Registry, faults: CycleFaults, now: Millis)
      requires store.Valid()
      modifies store
      ensures store.Valid()
      ensures store.Snapshot() == if job != null && job.active then Cycle(old(store.Snapshot()), registry, faults, now) else old(store.Snapshot())
    {
      if job != null && job.active {
        store.RunCycle(registry, faults, now);
      }
    }
  }

  /** Stop is final: a Start after it returns the stopped job, and no later firing refreshes or alerts. */
  method StopIsFinal(service: RefresherService, store: AccountStore, registry: Registry, faults: CycleFaults, now: Millis)
    returns (first: Timers.Job, second: Timers.Job)
    requires service.job == null && store.Valid()
    modifies service, store
    ensures second == first && !second.active
    ensures store.Snapshot() == Cycle(old(store.Snapshot()), registry, faults, now)
  {
    first := service.Start(store, registry, faults, now);
    service.Stop();
    second := service.Start(store, registry, faults, now + Timers.HourMs);
    service.Tick(store, registry, faults, now + Timers.HourMs);
  }
}
