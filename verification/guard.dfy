/**
  The login-attempt guard of website/views.py:21-115: a counter of failed
  logins per (client IP, username) pair, and a 30-minute block once the
  counter reaches ten, both kept in the expiring cache.

  The cache keys are the strings `login_attempts_<ip>_<user>` and
  `login_blocked_<ip>_<user>`; here a key is the pair itself, tagged with
  which of the two it is. `KeyTextDeterminesPair` below says when the two
  views agree. Cache values are Python ints: the block flag `True` is the
  int 1 and the default `False` is 0.
 */
module Guard {
  import opened Wrappers
  import opened Text
  import Cache

  /** `MAX_ATTEMPTS`. */
  const MaxAttempts := 10

  /** `BLOCK_TIME`, in minutes. */
  const BlockTime := 30

  const BlockSeconds := BlockTime * 60

  /** The timeout of the failure counter: 24 hours. */
  const CounterSeconds := 24 * 60 * 60

  // ---- get_client_ip ----

  /** `get_client_ip`: the first entry of a non-empty `X-Forwarded-For`
      header, not trimmed, or else `REMOTE_ADDR` (either header may be
      missing). */
  function ClientIp(forwardedFor: Option<string>, remoteAddr: Option<string>): (ip: Option<string>)
    ensures forwardedFor.Some? && forwardedFor.value != [] ==>
              && ip.Some? && ip.value <= forwardedFor.value && ',' !in ip.value
              && (|ip.value| == |forwardedFor.value| || forwardedFor.value[|ip.value|] == ',')
    ensures (forwardedFor.None? || forwardedFor.value == []) ==> ip == remoteAddr
  {
    if forwardedFor.Some? && forwardedFor.value != [] then Some(BeforeFirst(forwardedFor.value, ','))
    else remoteAddr
  }

  /** A proxy chain "first,rest" yields `first`, spaces and all. */
  lemma ClientIpTakesFirstHop(first: string, rest: string, remoteAddr: Option<string>)
    requires ',' !in first
    ensures ClientIp(Some(first + [','] + rest), remoteAddr) == Some(first)
  {
    BeforeFirstOfJoin(first, ',', rest);
  }

  // ---- the keys ----

  /** The (client IP, username) pair a counter and a block belong to. */
  datatype Pair = Pair(ip: Option<string>, user: string)

  datatype Key = Attempts(pair: Pair) | Blocked(pair: Pair)

  type Store = Cache.Store<Key, int>

  /** How an f-string writes the IP: a missing one becomes "None". */
  function FormatIp(ip: Option<string>): string
  {
    if ip.None? then "None" else ip.value
  }

  function AttemptsKeyText(p: Pair): string
  {
    "login_attempts_" + FormatIp(p.ip) + "_" + p.user
  }

  function BlockKeyText(p: Pair): string
  {
    "login_blocked_" + FormatIp(p.ip) + "_" + p.user
  }

  /** A counter key never names a block. */
  lemma KeyTextsNeverClash(p: Pair, q: Pair)
    ensures AttemptsKeyText(p) != BlockKeyText(q)
  {
    assert AttemptsKeyText(p)[6] == 'a';
    assert BlockKeyText(q)[6] == 'b';
  }

  /** The text of a key determines its pair when neither IP contains '_'
      (no IPv4 or IPv6 address does) nor is the text "None". */
  lemma KeyTextDeterminesPair(p: Pair, q: Pair)
    requires '_' !in FormatIp(p.ip) && '_' !in FormatIp(q.ip)
    requires p.ip != Some("None") && q.ip != Some("None")
    requires AttemptsKeyText(p) == AttemptsKeyText(q)
    ensures p == q
  {
    var s := AttemptsKeyText(p);
    var n := |"login_attempts_"|;
    assert s[n..] == FormatIp(p.ip) + ['_'] + p.user;
    assert s[n..] == FormatIp(q.ip) + ['_'] + q.user;
    BeforeFirstOfJoin(FormatIp(p.ip), '_', p.user);
    BeforeFirstOfJoin(FormatIp(q.ip), '_', q.user);
    assert FormatIp(p.ip) == FormatIp(q.ip);
    assert p.user == s[n + |FormatIp(p.ip)| + 1..] == q.user;
  }

  /** Without that condition two pairs can share a key. */
  lemma KeyTextCollision()
    ensures Pair(Some("10.0.0.1_x"), "y") != Pair(Some("10.0.0.1"), "x_y")
    ensures AttemptsKeyText(Pair(Some("10.0.0.1_x"), "y")) == AttemptsKeyText(Pair(Some("10.0.0.1"), "x_y"))
  {
    assert Pair(Some("10.0.0.1_x"), "y").user != Pair(Some("10.0.0.1"), "x_y").user;
  }

  /** A store changed only in the entries of pair `p`. */
  ghost predicate OthersUnchanged(st: Store, st': Store, p: Pair)
  {
    forall k: Key :: k.pair != p ==> (k in st' <==> k in st) && (k in st ==> st'[k] == st[k])
  }

  /** The failure count of a pair as `cache.get(cache_key, 0)` reads it. */
  function StoredCount(st: Store, p: Pair, now: int): int
  {
    Cache.Get(st, Attempts(p), 0, now)
  }

  /** The stores `home` keeps: counters in 1..9 and blocks holding `True`. */
  predicate WellFormed(st: Store)
  {
    forall k :: k in st ==>
      && (k.Attempts? ==> 1 <= st[k].value < MaxAttempts)
      && (k.Blocked? ==> st[k].value == 1)
  }

  // ---- check_login_attempts ----

  /** `(is_blocked, attempts_remaining, block_time_remaining)`. */
  datatype Status = Status(blocked: bool, remaining: int, minutes: int)

  /** `check_login_attempts`: a live, truthy block entry reports the full 30
      minutes whatever time is left on it and whatever the counter holds;
      otherwise the attempts left, an absent or expired counter counting
      as 0. */
  function CheckLoginAttempts(st: Store, p: Pair, now: int): (s: Status)
    ensures s.blocked <==> Cache.Live(st, Blocked(p), now) && st[Blocked(p)].value != 0
    ensures s.blocked ==> s == Status(true, 0, BlockTime)
    ensures !s.blocked ==> s.minutes == 0 && s.remaining == MaxAttempts - StoredCount(st, p, now)
    ensures !s.blocked && !Cache.Live(st, Attempts(p), now) ==> s.remaining == MaxAttempts
    ensures !s.blocked && WellFormed(st) ==> 1 <= s.remaining <= MaxAttempts
  {
    var isBlocked := Cache.Get(st, Blocked(p), 0, now);
    if isBlocked != 0 then
      Status(true, 0, BlockSeconds / 60)
    else
      Status(false, MaxAttempts - Cache.Get(st, Attempts(p), 0, now), 0)
  }

  // ---- increment_login_attempts ----

  datatype Transition = Transition(store: Store, status: Status)

  /** `increment_login_attempts`: the tenth counted failure sets a 30-minute
      block and deletes the counter; an earlier one stores the new count for
      24 hours. Either way no other pair's entries change. */
  function IncrementLoginAttempts(st: Store, p: Pair, now: int): (r: Transition)
    ensures StoredCount(st, p, now) + 1 >= MaxAttempts ==>
              && r.status == Status(true, 0, BlockTime)
              && Blocked(p) in r.store && r.store[Blocked(p)] == Cache.Entry(1, now + BlockSeconds)
              && Attempts(p) !in r.store
    ensures StoredCount(st, p, now) + 1 < MaxAttempts ==>
              && r.status == Status(false, MaxAttempts - (StoredCount(st, p, now) + 1), 0)
              && Attempts(p) in r.store
              && r.store[Attempts(p)] == Cache.Entry(StoredCount(st, p, now) + 1, now + CounterSeconds)
              && (Blocked(p) in r.store <==> Blocked(p) in st)
              && (Blocked(p) in st ==> r.store[Blocked(p)] == st[Blocked(p)])
    ensures 0 <= StoredCount(st, p, now) < MaxAttempts - 1 ==>
              1 <= r.status.remaining < MaxAttempts - StoredCount(st, p, now)
    ensures OthersUnchanged(st, r.store, p)
  {
    var attempts := Cache.Get(st, Attempts(p), 0, now) + 1;
    if attempts >= MaxAttempts then
      var blocked := Cache.Set(st, Blocked(p), 1, now, BlockSeconds);
      Transition(Cache.Delete(blocked, Attempts(p)), Status(true, 0, BlockTime))
    else
      Transition(Cache.Set(st, Attempts(p), attempts, now, CounterSeconds), Status(false, MaxAttempts - attempts, 0))
  }

  /** What an increment reports is what the next check reads back, as long
      as the pair was not blocked before. */
  lemma IncrementReadsBack(st: Store, p: Pair, now: int)
    requires !CheckLoginAttempts(st, p, now).blocked
    ensures CheckLoginAttempts(IncrementLoginAttempts(st, p, now).store, p, now) == IncrementLoginAttempts(st, p, now).status
  {
  }

  // ---- home ----

  /** The message `home` leaves: locked for some minutes, logged in, or
      rejected with some attempts left. */
  datatype Outcome = Locked(minutes: int) | LoggedIn | Rejected(remaining: int)

  /** The store after the POST, its outcome, and whether `authenticate` was
      consulted. */
  datatype HomeResult = HomeResult(store: Store, outcome: Outcome, checkedPassword: bool)

  /** A login POST to `home` by pair `p` at time `now`; `passwordOk` is the
      answer `authenticate` would give. */
  function Home(st: Store, p: Pair, now: int, passwordOk: bool): (r: HomeResult)
    ensures r.checkedPassword <==> !CheckLoginAttempts(st, p, now).blocked
    ensures !r.checkedPassword ==> r.store == st && r.outcome == Locked(BlockTime)
    ensures r.outcome == LoggedIn <==> r.checkedPassword && passwordOk
    ensures r.outcome == LoggedIn ==>
              && Attempts(p) !in r.store
              && forall k: Key :: k != Attempts(p) ==> (k in r.store <==> k in st) && (k in st ==> r.store[k] == st[k])
    ensures r.checkedPassword && !passwordOk ==>
              var t := IncrementLoginAttempts(st, p, now);
              && r.store == t.store
              && r.outcome == if t.status.blocked then Locked(BlockTime) else Rejected(t.status.remaining)
    ensures OthersUnchanged(st, r.store, p)
  {
    var check := CheckLoginAttempts(st, p, now);
    if check.blocked then
      HomeResult(st, Locked(check.minutes), false)
    else if passwordOk then
      HomeResult(Cache.Delete(st, Attempts(p)), LoggedIn, true)
    else
      var t := IncrementLoginAttempts(st, p, now);
      HomeResult(t.store, if t.status.blocked then Locked(t.status.minutes) else Rejected(t.status.remaining), true)
  }

  /** `home` keeps the store well formed. */
  lemma HomeKeepsWellFormed(st: Store, p: Pair, now: int, passwordOk: bool)
    requires WellFormed(st)
    ensures WellFormed(Home(st, p, now, passwordOk).store)
  {
    var r := Home(st, p, now, passwordOk);
    forall k | k in r.store
      ensures k.Attempts? ==> 1 <= r.store[k].value < MaxAttempts
      ensures k.Blocked? ==> r.store[k].value == 1
    {
      if k.pair == p && k in st {
        assert 0 <= StoredCount(st, p, now) < MaxAttempts;
      }
    }
  }

  /** After a successful login the pair is reported unblocked with all ten
      attempts, now and at any later time. */
  lemma SuccessResetsCounter(st: Store, p: Pair, now: int, later: int)
    requires Home(st, p, now, true).outcome == LoggedIn && now <= later
    ensures CheckLoginAttempts(Home(st, p, now, true).store, p, later) == Status(false, MaxAttempts, 0)
  {
    var r := Home(st, p, now, true);
    if Blocked(p) in st && st[Blocked(p)].value != 0 {
      assert !Cache.Live(st, Blocked(p), now);
    }
  }

  // ---- a run of failed logins ----

  /** Each failure comes less than a day after the one before it, so the
      counter that the earlier failure renewed is still live. */
  predicate CloseTogether(times: seq<int>)
  {
    forall i :: 1 <= i < |times| ==> times[i] < times[i - 1] + CounterSeconds
  }

  /** The store after failed login POSTs by `p` at each of `times`. */
  function Failures(st: Store, p: Pair, times: seq<int>): (r: Store)
    ensures OthersUnchanged(st, r, p)
    decreases |times|
  {
    if times == [] then st else Failures(Home(st, p, times[0], false).store, p, times[1..])
  }

  /** From a live counter at `c`, `MaxAttempts - c` failures, each less
      than a day after the one before, end in a block set at the last of
      them and no counter. */
  lemma {:induction false} FailuresCountUp(st: Store, p: Pair, times: seq<int>, c: nat)
    requires c < MaxAttempts && |times| == MaxAttempts - c && CloseTogether(times)
    requires Blocked(p) !in st
    requires c == 0 ==> Attempts(p) !in st
    requires c > 0 ==> Attempts(p) in st && st[Attempts(p)] == Cache.Entry(c, st[Attempts(p)].expiry)
    requires c > 0 ==> st[Attempts(p)].expiry > times[0]
    ensures var r := Failures(st, p, times);
              && Blocked(p) in r && r[Blocked(p)] == Cache.Entry(1, times[|times| - 1] + BlockSeconds)
              && Attempts(p) !in r
    decreases |times|
  {
    var h := Home(st, p, times[0], false);
    assert StoredCount(st, p, times[0]) == c;
    if c == MaxAttempts - 1 {
      assert times[1..] == [];
    } else {
      assert times[1..][|times[1..]| - 1] == times[|times| - 1];
      assert times[1..][0] == times[1] < times[0] + CounterSeconds;
      assert CloseTogether(times[1..]) by {
        forall i | 1 <= i < |times[1..]|
          ensures times[1..][i] < times[1..][i - 1] + CounterSeconds
        {
          assert times[1..][i] == times[i + 1] && times[1..][i - 1] == times[i];
        }
      }
      FailuresCountUp(h.store, p, times[1..], c + 1);
    }
  }

  /** Ten failed logins by a pair with no entries, each less than a day
      after the one before, block it for 30 minutes: a correct password is
      then turned away without being checked. Afterwards all ten attempts
      are back, and no other pair was touched. */
  lemma TenFailuresLockOut(st: Store, p: Pair, times: seq<int>, later: int)
    requires |times| == MaxAttempts && CloseTogether(times)
    requires Attempts(p) !in st && Blocked(p) !in st
    ensures var r := Failures(st, p, times);
              && (later < times[MaxAttempts - 1] + BlockSeconds ==>
                    && CheckLoginAttempts(r, p, later) == Status(true, 0, BlockTime)
                    && Home(r, p, later, true) == HomeResult(r, Locked(BlockTime), false))
              && (later >= times[MaxAttempts - 1] + BlockSeconds ==>
                    CheckLoginAttempts(r, p, later) == Status(false, MaxAttempts, 0))
              && OthersUnchanged(st, r, p)
  {
    FailuresCountUp(st, p, times, 0);
  }
}
