/** The scheduled renewal of Snapshot and Timestamp that runs between ceremonies. */
module Refresh {
  import opened Wrappers
  import opened Tuf
  import opened CurrentState
  import opened Builders
  import opened Ceremony

  const REFRESH_THRESHOLD: Time := 24 * HOUR

  predicate Due(c: Chain, now: Time) {
    || c.snapshot.signed.expires - now <= REFRESH_THRESHOLD
    || c.timestamp.signed.expires - now <= REFRESH_THRESHOLD
  }

  /** `refresh_if_due` around `_resolve_online_signers`; the current files when nothing is due. */
  function PrepareRefresh(
    w: World, repo: Repo, now: Time, online: Result<OnlineSigners, Code>): Result<Prepared, Code>
  {
    var c :- VerifyCurrentState(w, repo, now);
    if !Due(c, now) then Success(Prepared(repo, false))
    else
      var s :- ResolveOnlineSigners(online, c.root.signed);
      :- Need(s.snapshot.keyid != s.timestamp.keyid, OnlineSignersUnavailable);
      var pair :- BuildOnlinePair(w, Base, c.root.signed, c.snapshot.signed, c.timestamp.signed,
                                  repo.targets, c.targets.signed, s.snapshot, s.timestamp, now);
      var after := repo.(snapshot := pair.snapshot, timestamp := pair.timestamp);
      var d :- VerifyCurrentState(w, after, now);
      :- Need(!Due(d, now), UnexpectedCeremonyError);
      Success(Prepared(after, true))
  }

  /** Nothing is renewed exactly when both lifetimes have more than 24 hours left; the files then stay as they are. */
  lemma NothingDueIff(w: World, repo: Repo, now: Time, online: Result<OnlineSigners, Code>)
    requires VerifyCurrentState(w, repo, now).Success?
    ensures var r, c := PrepareRefresh(w, repo, now, online), ChainOf(repo);
            && (r.Success? && !r.value.changed
                <==> c.snapshot.signed.expires - now > 86400 && c.timestamp.signed.expires - now > 86400)
            && (r.Success? && !r.value.changed ==> r.value.after == repo)
  {
  }

  /** A refresh that was due builds a next pair around the same Targets bytes. */
  lemma RefreshIsNextPair(w: World, repo: Repo, now: Time, online: Result<OnlineSigners, Code>, p: Prepared)
    requires PrepareRefresh(w, repo, now, online) == Success(p) && p.changed
    ensures NextPair(w, Base, repo, p.after, now) && p.after.targets == repo.targets
  {
  }

  /** The freshly built pair is never itself due, so the closing check cannot fail. */
  lemma RefreshSucceedsIff(w: World, repo: Repo, now: Time, online: Result<OnlineSigners, Code>)
    requires w.Sound() && VerifyCurrentState(w, repo, now).Success? && Due(ChainOf(repo), now)
    ensures PrepareRefresh(w, repo, now, online).Success?
       <==> && OnlineReady(online, ChainOf(repo).root.signed)
            && online.value.snapshot.keyid != online.value.timestamp.keyid
            && now + SNAPSHOT_EXPIRY < AuthorityExpiry(ChainOf(repo))
  {
    hide BuildOnlinePair;
    var c := ChainOf(repo);
    if online.Success? {
      BuildOnlinePairIff(w, Base, c.root.signed, c.snapshot.signed, c.timestamp.signed,
                         repo.targets, c.targets.signed, online.value.snapshot, online.value.timestamp, now);
    }
  }
}
