/** The demonstration relay's attempt limiter and one-shot pairing codes
    (apps/host/src/demo-pairing.ts). */
module DemoPairing {
  import opened JsText
  import opened Protocol

  // ----- The attempt limiter -----

  const WINDOW: int := 60_000
  const LIMIT: int := 30

  datatype Attempts = Attempts(count: nat, resetAt: int)

  /** The entry after an attempt at `now`, and whether the attempt may proceed. */
  function Attempt(current: Option<Attempts>, now: int): (Attempts, bool) {
    if current.None? || current.value.resetAt <= now then (Attempts(1, now + WINDOW), true)
    else (current.value.(count := current.value.count + 1), current.value.count + 1 <= LIMIT)
  }

  /** One attempt of some address. */
  datatype Knock = Knock(ip: string, now: int)

  function Lookup(attemptsByIp: map<string, Attempts>, ip: string): Option<Attempts> {
    if ip in attemptsByIp then Some(attemptsByIp[ip]) else None
  }

  /** Whether this attempt counts for `ip` in the interval of one window's length from `start`. */
  predicate Within(knock: Knock, ip: string, start: int) {
    knock.ip == ip && start <= knock.now < start + WINDOW
  }

  /** How many attempts of `ip` inside the interval are let through. */
  function Passed(attemptsByIp: map<string, Attempts>, knocks: seq<Knock>, ip: string, start: int): nat
    decreases knocks
  {
    if knocks == [] then 0
    else
      var knock := knocks[0];
      var (entry, passes) := Attempt(Lookup(attemptsByIp, knock.ip), knock.now);
      (if passes && Within(knock, ip, start) then 1 else 0)
      + Passed(attemptsByIp[knock.ip := entry], knocks[1..], ip, start)
  }

  predicate Ordered(knocks: seq<Knock>) {
    forall i, j :: 0 <= i < j < |knocks| ==> knocks[i].now <= knocks[j].now
  }

  /** Times the attempts do not run back before `clock`. */
  predicate NotBefore(clock: int, knocks: seq<Knock>) {
    knocks != [] ==> clock <= knocks[0].now
  }

  /** At most this many more attempts of the address can pass inside the interval. */
  function Budget(current: Option<Attempts>, clock: int, start: int): nat {
    if start + WINDOW <= clock then 0
    else if current.None? then 2 * LIMIT - 1
    else
      var left := if current.value.count < LIMIT then LIMIT - current.value.count else 0;
      if start + WINDOW <= current.value.resetAt then left
      else if start <= clock then left + LIMIT
      else 2 * LIMIT - 1
  }

  /** Every entry has counted its opening attempt. */
  ghost predicate Counted(attemptsByIp: map<string, Attempts>) {
    forall ip :: ip in attemptsByIp ==> attemptsByIp[ip].count >= 1
  }

  lemma {:induction false} PassedWithinBudget(attemptsByIp: map<string, Attempts>, knocks: seq<Knock>,
                                              ip: string, start: int, clock: int)
    requires Counted(attemptsByIp) && Ordered(knocks) && NotBefore(clock, knocks)
    ensures Passed(attemptsByIp, knocks, ip, start) <= Budget(Lookup(attemptsByIp, ip), clock, start)
    decreases knocks
  {
    if knocks != [] {
      var knock := knocks[0];
      var (entry, passes) := Attempt(Lookup(attemptsByIp, knock.ip), knock.now);
      var next := attemptsByIp[knock.ip := entry];
      hide Attempt, Budget;
      assert Counted(next) by { EntryCounted(Lookup(attemptsByIp, knock.ip), knock.now); }
      PassedWithinBudget(next, knocks[1..], ip, start, knock.now);
    }
  }

  lemma EntryCounted(current: Option<Attempts>, now: int)
    ensures Attempt(current, now).0.count >= 1
  {
  }

  /** In any interval of one window's length an address gets at most 59 attempts through,
      however they fall across its windows. */
  lemma AtMostFiftyNine(knocks: seq<Knock>, ip: string, start: int)
    requires Ordered(knocks)
    ensures Passed(map[], knocks, ip, start) <= 59
  {
    if knocks != [] {
      PassedWithinBudget(map[], knocks, ip, start, knocks[0].now);
    }
  }

  /** `n` attempts of one address at one moment. */
  function Burst(ip: string, now: int, n: nat): seq<Knock> {
    seq(n, _ => Knock(ip, now))
  }

  /** Inside an open window a burst passes until the window's count reaches the limit. */
  lemma {:induction false} BurstPasses(attemptsByIp: map<string, Attempts>, ip: string, now: int, n: nat,
                                       rest: seq<Knock>, start: int)
    requires ip in attemptsByIp && attemptsByIp[ip].resetAt > now && start <= now < start + WINDOW
    requires attemptsByIp[ip].count + n <= LIMIT
    ensures var entry := attemptsByIp[ip].(count := attemptsByIp[ip].count + n);
            Passed(attemptsByIp, Burst(ip, now, n) + rest, ip, start)
            == n + Passed(attemptsByIp[ip := entry], rest, ip, start)
    decreases n
  {
    var knocks := Burst(ip, now, n) + rest;
    if n == 0 {
      assert knocks == rest;
      assert attemptsByIp[ip := attemptsByIp[ip].(count := attemptsByIp[ip].count)] == attemptsByIp;
    } else {
      assert knocks[0] == Knock(ip, now) && knocks[1..] == Burst(ip, now, n - 1) + rest;
      var entry := attemptsByIp[ip].(count := attemptsByIp[ip].count + 1);
      var next := attemptsByIp[ip := entry];
      BurstPasses(next, ip, now, n - 1, rest, start);
      assert next[ip := entry.(count := entry.count + (n - 1))]
          == attemptsByIp[ip := attemptsByIp[ip].(count := attemptsByIp[ip].count + n)];
    }
  }

  /** The bound is met: the last moment of one window and the first of the next let 59
      through. */
  lemma FiftyNineCanPass(ip: string)
    ensures var knocks := [Knock(ip, 0)] + (Burst(ip, 59_999, 29) + ([Knock(ip, 60_000)] + Burst(ip, 60_000, 29)));
            Ordered(knocks) && Passed(map[], knocks, ip, 59_000) == 59
  {
    FiftyNineOrdered(ip);
    hide Ordered, Burst;
    var last := Burst(ip, 60_000, 29);
    var second := [Knock(ip, 60_000)] + last;
    var later := Burst(ip, 59_999, 29) + second;
    var knocks := [Knock(ip, 0)] + later;
    var begun: map<string, Attempts> := map[ip := Attempts(1, 60_000)];
    assert knocks[0] == Knock(ip, 0) && knocks[1..] == later;
    assert map[][ip := Attempts(1, 60_000)] == begun;
    assert Passed(map[], knocks, ip, 59_000) == Passed(begun, later, ip, 59_000);
    BurstPasses(begun, ip, 59_999, 29, second, 59_000);
    var full := begun[ip := Attempts(30, 60_000)];
    var reopened := full[ip := Attempts(1, 120_000)];
    assert second[0] == Knock(ip, 60_000) && second[1..] == last;
    assert Passed(full, second, ip, 59_000) == 1 + Passed(reopened, last, ip, 59_000);
    assert last + [] == last;
    BurstPasses(reopened, ip, 60_000, 29, [], 59_000);
  }

  lemma FiftyNineOrdered(ip: string)
    ensures Ordered([Knock(ip, 0)] + (Burst(ip, 59_999, 29) + ([Knock(ip, 60_000)] + Burst(ip, 60_000, 29))))
  {
  }

  // ----- Pairing codes -----

  datatype PendingCode = PendingCode(expiresAt: int, session: string)

  /** Every code ever shown, and where each was redeemed. `pending` maps a live code to the
      place where it was issued. */
  datatype Issue = Issue(code: string, entry: PendingCode)

  datatype Redemption = Redemption(issue: nat, at: int)

  datatype Codes = Codes(pending: map<string, nat>, issued: seq<Issue>, redeemed: seq<Redemption>)

  predicate Digits(code: string) {
    |code| == 8 && forall i :: 0 <= i < 8 ==> '0' <= code[i] <= '9'
  }

  /** A request after its limiter, body and session checks. `prunedAt` and `now` are the two
      readings of the clock. */
  datatype PairRequest =
    | HostRequest(draws: seq<string>, session: string, ttl: int, prunedAt: int, now: int)
    | JoinRequest(code: string, prunedAt: int, now: int)

  predicate WellFormed(request: PairRequest) {
    && request.prunedAt <= request.now
    && (request.HostRequest? ==> |request.draws| == 10 && forall i :: 0 <= i < 10 ==> Digits(request.draws[i]))
  }

  datatype PairResponse = Shown(code: string, expiresAt: int) | Invited(session: string) | InvalidOrExpired | NoCode

  ghost predicate InRange(codes: Codes) {
    && (forall code :: code in codes.pending ==> codes.pending[code] < |codes.issued|)
    && (forall i :: 0 <= i < |codes.redeemed| ==> codes.redeemed[i].issue < |codes.issued|)
  }

  function Expires(codes: Codes, code: string): int
    requires code in codes.pending && codes.pending[code] < |codes.issued|
  {
    codes.issued[codes.pending[code]].entry.expiresAt
  }

  function Pruned(codes: Codes, now: int): Codes
    requires InRange(codes)
  {
    codes.(pending := map code | code in codes.pending && now < Expires(codes, code) :: codes.pending[code])
  }

  /** The first draw that is not a live code. */
  function FirstFree(pending: map<string, nat>, draws: seq<string>): Option<string> {
    if draws == [] then None
    else if draws[0] !in pending then Some(draws[0])
    else FirstFree(pending, draws[1..])
  }

  function Show(codes: Codes, code: string, entry: PendingCode): Codes {
    Codes(codes.pending[code := |codes.issued|], codes.issued + [Issue(code, entry)], codes.redeemed)
  }

  function Forget(codes: Codes, code: string): Codes {
    codes.(pending := codes.pending - {code})
  }

  predicate Redeemable(codes: Codes, code: string, now: int)
    requires InRange(codes)
  {
    Digits(code) && code in codes.pending && now < Expires(codes, code)
  }

  function Answer(codes: Codes, request: PairRequest): (Codes, PairResponse)
    requires InRange(codes)
  {
    var live := Pruned(codes, request.prunedAt);
    match request
    case HostRequest(draws, session, ttl, _, now) =>
      (match FirstFree(live.pending, draws)
       case None => (live, NoCode)
       case Some(code) => (Show(live, code, PendingCode(now + ttl, session)), Shown(code, now + ttl)))
    case JoinRequest(text, _, now) =>
      var code := Trim(text);
      if Redeemable(live, code, now) then
        var place := live.pending[code];
        (Forget(live, code).(redeemed := live.redeemed + [Redemption(place, now)]),
         Invited(live.issued[place].entry.session))
      else (Forget(live, code), InvalidOrExpired)
  }

  predicate Redeemed(codes: Codes, issue: nat) {
    exists i :: 0 <= i < |codes.redeemed| && codes.redeemed[i].issue == issue
  }

  /** `clock` is the latest reading of the clock. */
  ghost predicate Sound(codes: Codes, clock: int) {
    && InRange(codes)
    && (forall code :: code in codes.pending ==>
          codes.issued[codes.pending[code]].code == code && !Redeemed(codes, codes.pending[code]))
    && (forall i, j :: 0 <= i < j < |codes.redeemed| ==> codes.redeemed[i].issue != codes.redeemed[j].issue)
    && (forall i :: 0 <= i < |codes.redeemed| ==>
          codes.redeemed[i].at < codes.issued[codes.redeemed[i].issue].entry.expiresAt)
    && (forall i :: 0 <= i < |codes.issued| ==> Digits(codes.issued[i].code))
    && (forall i :: 0 <= i < |codes.issued| && !Redeemed(codes, i) && clock < codes.issued[i].entry.expiresAt ==>
          codes.issued[i].code in codes.pending && codes.pending[codes.issued[i].code] == i)
  }

  lemma PrunedSound(codes: Codes, clock: int, now: int)
    requires Sound(codes, clock) && clock <= now
    ensures Sound(Pruned(codes, now), now)
  {
  }

  lemma {:induction false} FirstFreeIsFree(pending: map<string, nat>, draws: seq<string>)
    ensures var free := FirstFree(pending, draws);
            && (free.Some? ==> free.value in draws && free.value !in pending)
            && (free.None? <==> forall draw :: draw in draws ==> draw in pending)
  {
    if draws != [] {
      FirstFreeIsFree(pending, draws[1..]);
      assert forall draw :: draw in draws <==> draw == draws[0] || draw in draws[1..];
    }
  }

  lemma ShowSound(codes: Codes, code: string, entry: PendingCode, clock: int)
    requires Sound(codes, clock) && code !in codes.pending && Digits(code)
    ensures Sound(Show(codes, code, entry), clock)
  {
    hide Digits;
    var shown := Show(codes, code, entry);
    var place := |codes.issued|;
    assert forall i :: Redeemed(shown, i) <==> Redeemed(codes, i);
    assert !Redeemed(codes, place);
  }

  lemma ForgetSound(codes: Codes, code: string, clock: int)
    requires Sound(codes, clock) && (code in codes.pending ==> Expires(codes, code) <= clock)
    ensures Sound(Forget(codes, code), clock)
  {
    hide Digits;
    assert forall i :: Redeemed(Forget(codes, code), i) <==> Redeemed(codes, i);
  }

  lemma RedeemSound(codes: Codes, code: string, clock: int)
    requires Sound(codes, clock) && Redeemable(codes, code, clock)
    ensures Sound(Forget(codes, code).(redeemed := codes.redeemed + [Redemption(codes.pending[code], clock)]), clock)
  {
    hide Digits;
    var place := codes.pending[code];
    var after := Forget(codes, code).(redeemed := codes.redeemed + [Redemption(place, clock)]);
    RedeemedGrows(codes, after, Redemption(place, clock));
    assert !Redeemed(codes, place);
  }

  lemma RedeemedGrows(before: Codes, after: Codes, last: Redemption)
    requires after.redeemed == before.redeemed + [last]
    ensures forall i :: Redeemed(after, i) <==> Redeemed(before, i) || i == last.issue
  {
    forall i ensures Redeemed(after, i) <==> Redeemed(before, i) || i == last.issue {
      assert after.redeemed[|before.redeemed|] == last;
      assert forall k :: 0 <= k < |before.redeemed| ==> after.redeemed[k] == before.redeemed[k];
    }
  }

  /** Every request keeps the codes sound. */
  lemma AnswerSound(codes: Codes, request: PairRequest, clock: int)
    requires Sound(codes, clock) && WellFormed(request) && clock <= request.prunedAt
    ensures Sound(Answer(codes, request).0, request.now)
  {
    hide Digits, Show, Forget, Pruned;
    var live := Pruned(codes, request.prunedAt);
    PrunedSound(codes, clock, request.prunedAt);
    Later(live, request.prunedAt, request.now);
    match request
    case HostRequest(draws, session, ttl, _, now) =>
      FirstFreeIsFree(live.pending, draws);
      var free := FirstFree(live.pending, draws);
      if free.Some? {
        ShowSound(live, free.value, PendingCode(now + ttl, session), now);
      }
    case JoinRequest(text, _, now) =>
      var code := Trim(text);
      if Redeemable(live, code, now) {
        RedeemSound(live, code, now);
      } else {
        ForgetSound(live, code, now);
      }
  }

  lemma Later(codes: Codes, clock: int, now: int)
    requires Sound(codes, clock) && clock <= now
    ensures Sound(codes, now)
  {
  }

  /** A join succeeds exactly for a code that was shown, never redeemed and has not expired;
      the invitation is for the workspace it was shown for. */
  lemma JoinSucceedsIff(codes: Codes, text: string, clock: int, prunedAt: int, now: int)
    requires Sound(codes, clock) && clock <= prunedAt <= now
    ensures var response := Answer(codes, JoinRequest(text, prunedAt, now)).1;
            && (response.Invited? <==> exists i: nat :: Usable(codes, i, Trim(text), now))
            && (forall i: nat :: response.Invited? && Usable(codes, i, Trim(text), now) ==>
                  response.session == codes.issued[i].entry.session)
            && (response.Invited? || response == InvalidOrExpired)
  {
    hide Digits, Forget;
    var code := Trim(text);
    var live := Pruned(codes, prunedAt);
    PrunedSound(codes, clock, prunedAt);
    if Redeemable(live, code, now) {
      assert Usable(codes, live.pending[code], code, now);
    }
    if i: nat :| Usable(codes, i, code, now) {
      assert Digits(codes.issued[i].code);
      assert code in live.pending && live.pending[code] == i;
    }
  }

  predicate Usable(codes: Codes, issue: nat, code: string, now: int) {
    && issue < |codes.issued|
    && codes.issued[issue].code == code
    && !Redeemed(codes, issue)
    && now < codes.issued[issue].entry.expiresAt
  }

  predicate Timely(clock: int, requests: seq<PairRequest>)
    decreases requests
  {
    requests == []
    || (clock <= requests[0].prunedAt && WellFormed(requests[0]) && Timely(requests[0].now, requests[1..]))
  }

  /** The codes after the requests, and the latest clock reading. */
  ghost function After(codes: Codes, clock: int, requests: seq<PairRequest>): Codes
    requires Sound(codes, clock) && Timely(clock, requests)
    decreases requests
  {
    if requests == [] then codes
    else
      AnswerSound(codes, requests[0], clock);
      After(Answer(codes, requests[0]).0, requests[0].now, requests[1..])
  }

  /** Over every run: no issued code is redeemed twice, and none at or after its expiry. */
  lemma {:induction false} EachCodeRedeemedOnce(codes: Codes, clock: int, requests: seq<PairRequest>)
    requires Sound(codes, clock) && Timely(clock, requests)
    ensures var end := After(codes, clock, requests);
            && (forall i, j :: 0 <= i < j < |end.redeemed| ==> end.redeemed[i].issue != end.redeemed[j].issue)
            && (forall i :: 0 <= i < |end.redeemed| ==>
                  end.redeemed[i].issue < |end.issued|
                  && end.redeemed[i].at < end.issued[end.redeemed[i].issue].entry.expiresAt)
            && codes.redeemed <= end.redeemed && codes.issued <= end.issued
    decreases requests
  {
    if requests != [] {
      AnswerSound(codes, requests[0], clock);
      EachCodeRedeemedOnce(Answer(codes, requests[0]).0, requests[0].now, requests[1..]);
    }
  }

  // ----- The conversation -----

  /** A request and what was answered. */
  datatype Exchange = Exchange(request: PairRequest, response: PairResponse)

  /** The `j`th exchange showed the code, less than its lifetime ago, and nobody has tried to join
      with the code since. */
  predicate Live(history: seq<Exchange>, j: int, code: string, now: int) {
    && 0 <= j < |history|
    && history[j].request.HostRequest? && history[j].response.Shown? && history[j].response.code == code
    && now < history[j].request.now + history[j].request.ttl
    && NotTried(history[j + 1..], code)
  }

  predicate NotTried(history: seq<Exchange>, code: string) {
    forall m :: 0 <= m < |history| && history[m].request.JoinRequest? ==> Trim(history[m].request.code) != code
  }

  ghost predicate InUse(history: seq<Exchange>, code: string, now: int) {
    exists j :: Live(history, j, code, now)
  }

  /** What has to be answered after `history`, from the exchanges alone. A host is shown its first
      draw that is not in use, until its lifetime from now, or nothing if all draws are in use; a
      join is invited to the workspace of the exchange that showed its code, if one is live. */
  ghost predicate Follows(history: seq<Exchange>, request: PairRequest, response: PairResponse) {
    match request
    case HostRequest(draws, session, ttl, prunedAt, now) =>
      if forall draw :: draw in draws ==> InUse(history, draw, prunedAt) then response == NoCode
      else exists d :: 0 <= d < |draws| && response == Shown(draws[d], now + ttl) && !InUse(history, draws[d], prunedAt)
                       && forall e :: 0 <= e < d ==> InUse(history, draws[e], prunedAt)
    case JoinRequest(text, _, now) =>
      if exists j :: Live(history, j, Trim(text), now) then
        forall j :: Live(history, j, Trim(text), now) ==> response == Invited(history[j].request.session)
      else response == InvalidOrExpired
  }

  /** The table agrees with the exchanges so far about one code. */
  ghost predicate RecountsOne(codes: Codes, clock: int, history: seq<Exchange>, code: string)
    requires InRange(codes)
  {
    && (code in codes.pending && clock < Expires(codes, code) ==> InUse(history, code, clock))
    && (forall j :: Live(history, j, code, clock) ==> code in codes.pending && Stores(codes, code, history[j].request))
  }

  ghost predicate Recounts(codes: Codes, clock: int, history: seq<Exchange>)
    requires InRange(codes)
  {
    forall code :: RecountsOne(codes, clock, history, code)
  }

  predicate Stores(codes: Codes, code: string, request: PairRequest)
    requires InRange(codes) && code in codes.pending
  {
    && request.HostRequest?
    && codes.issued[codes.pending[code]].entry == PendingCode(request.now + request.ttl, request.session)
  }

  /** Whether a code is in use, at any later time. */
  lemma UsedIff(codes: Codes, clock: int, history: seq<Exchange>, code: string, now: int)
    requires InRange(codes) && Recounts(codes, clock, history) && clock <= now
    ensures code in codes.pending && now < Expires(codes, code) <==> InUse(history, code, now)
    ensures forall j :: Live(history, j, code, now) ==> code in codes.pending && Stores(codes, code, history[j].request)
  {
    hide NotTried;
    assert RecountsOne(codes, clock, history, code);
    assert forall j :: Live(history, j, code, now) ==> Live(history, j, code, clock);
    if code in codes.pending && now < Expires(codes, code) {
      var j :| Live(history, j, code, clock);
      assert Live(history, j, code, now);
    }
  }

  lemma NotTriedAppend(history: seq<Exchange>, last: Exchange, code: string)
    ensures NotTried(history + [last], code)
       <==> NotTried(history, code) && !(last.request.JoinRequest? && Trim(last.request.code) == code)
  {
    hide Trim;
    var more := history + [last];
    assert more[|history|] == last && forall m :: 0 <= m < |history| ==> more[m] == history[m];
  }

  lemma LiveAppend(history: seq<Exchange>, last: Exchange, j: int, code: string, now: int)
    ensures 0 <= j < |history| ==>
              (Live(history + [last], j, code, now)
               <==> Live(history, j, code, now) && !(last.request.JoinRequest? && Trim(last.request.code) == code))
    ensures Live(history + [last], |history|, code, now)
       <==> last.request.HostRequest? && last.response.Shown? && last.response.code == code
            && now < last.request.now + last.request.ttl
    ensures !(0 <= j <= |history|) ==> !Live(history + [last], j, code, now)
  {
    hide NotTried;
    var more := history + [last];
    if 0 <= j < |history| {
      assert more[j + 1..] == history[j + 1..] + [last];
      NotTriedAppend(history[j + 1..], last, code);
    }
    assert NotTried(more[|history| + 1..], code) by { NoneTried(more[|history| + 1..], code); }
  }

  lemma NoneTried(history: seq<Exchange>, code: string)
    requires history == []
    ensures NotTried(history, code)
  {
  }

  /** What a request answers follows from the exchanges. */
  lemma AnswerFollows(codes: Codes, clock: int, history: seq<Exchange>, request: PairRequest)
    requires Sound(codes, clock) && WellFormed(request) && clock <= request.prunedAt && Recounts(codes, clock, history)
    ensures Follows(history, request, Answer(codes, request).1)
  {
    hide Sound, Recounts, Digits, Live, Trim, Forget, Show;
    SoundInRange(codes, clock);
    var live := Pruned(codes, request.prunedAt);
    PrunedSound(codes, clock, request.prunedAt);
    SoundInRange(live, request.prunedAt);
    match request
    case HostRequest(draws, _, _, prunedAt, _) =>
      forall draw ensures draw in live.pending <==> InUse(history, draw, prunedAt) {
        UsedIff(codes, clock, history, draw, prunedAt);
      }
      FirstFreeAt(live.pending, draws);
    case JoinRequest(text, _, now) =>
      var code := Trim(text);
      UsedIff(codes, clock, history, code, now);
      LiveCodeHasDigits(codes, clock, code);
  }

  lemma LiveCodeHasDigits(codes: Codes, clock: int, code: string)
    requires Sound(codes, clock)
    ensures code in codes.pending ==> Digits(code)
  {
    hide Digits;
  }

  lemma {:induction false} FirstFreeAt(pending: map<string, nat>, draws: seq<string>)
    ensures var free := FirstFree(pending, draws);
            if forall draw :: draw in draws ==> draw in pending then free == None
            else exists d :: 0 <= d < |draws| && free == Some(draws[d]) && draws[d] !in pending
                             && forall e :: 0 <= e < d ==> draws[e] in pending
  {
    FirstFreeIsFree(pending, draws);
    if draws != [] && draws[0] in pending {
      FirstFreeAt(pending, draws[1..]);
      if !(forall draw :: draw in draws[1..] ==> draw in pending) {
        var d :| 0 <= d < |draws[1..]| && FirstFree(pending, draws[1..]) == Some(draws[1..][d])
                 && draws[1..][d] !in pending && forall e :: 0 <= e < d ==> draws[1..][e] in pending;
        assert draws[d + 1] == draws[1..][d];
        assert forall e :: 0 < e < d + 1 ==> draws[e] == draws[1..][e - 1];
      }
    }
  }

  lemma HostRecounts(codes: Codes, clock: int, history: seq<Exchange>, request: PairRequest, code: string)
    requires Sound(codes, clock) && WellFormed(request) && clock <= request.prunedAt && Recounts(codes, clock, history)
    requires request.HostRequest?
    ensures var (after, response) := Answer(codes, request);
            InRange(after) && RecountsOne(after, request.now, history + [Exchange(request, response)], code)
  {
    hide Sound, Recounts, Digits, Live, Trim;
    AnswerSound(codes, request, clock);
    SoundInRange(codes, clock);
    var (after, response) := Answer(codes, request);
    SoundInRange(after, request.now);
    var last := Exchange(request, response);
    var more := history + [last];
    UsedIff(codes, clock, history, code, request.now);
    FirstFreeIsFree(Pruned(codes, request.prunedAt).pending, request.draws);
    forall j { LiveAppend(history, last, j, code, request.now); }
    OnlyExchanges(history, code, request.now);
    OnlyExchanges(more, code, request.now);
    if code in after.pending && request.now < Expires(after, code) {
      if response.Shown? && response.code == code {
        assert Live(more, |history|, code, request.now);
      } else {
        var j :| Live(history, j, code, request.now);
        assert Live(more, j, code, request.now);
      }
    }
    assert Live(more, |history|, code, request.now) ==> more[|history|] == last;
    forall j | Live(more, j, code, request.now) ensures code in after.pending && Stores(after, code, more[j].request) {
      if j == |history| {
        assert more[j] == last;
      } else {
        assert Live(history, j, code, request.now) && more[j] == history[j];
      }
    }
  }

  lemma OnlyExchanges(history: seq<Exchange>, code: string, now: int)
    ensures forall j :: Live(history, j, code, now) ==> 0 <= j < |history|
  {
  }

  lemma JoinRecounts(codes: Codes, clock: int, history: seq<Exchange>, request: PairRequest, code: string)
    requires Sound(codes, clock) && WellFormed(request) && clock <= request.prunedAt && Recounts(codes, clock, history)
    requires request.JoinRequest?
    ensures var (after, response) := Answer(codes, request);
            InRange(after) && RecountsOne(after, request.now, history + [Exchange(request, response)], code)
  {
    hide Sound, Recounts, Digits, Live, Trim;
    AnswerSound(codes, request, clock);
    SoundInRange(codes, clock);
    var (after, response) := Answer(codes, request);
    SoundInRange(after, request.now);
    var last := Exchange(request, response);
    var more := history + [last];
    UsedIff(codes, clock, history, code, request.now);
    forall j { LiveAppend(history, last, j, code, request.now); }
    OnlyExchanges(more, code, request.now);
    if j :| Live(history, j, code, request.now) {
      OnlyExchanges(history, code, request.now);
      assert code != Trim(request.code) ==> Live(more, j, code, request.now);
    }
  }

  /** The table still agrees with the exchanges after one more. */
  lemma AnswerRecounts(codes: Codes, clock: int, history: seq<Exchange>, request: PairRequest)
    requires Sound(codes, clock) && WellFormed(request) && clock <= request.prunedAt && Recounts(codes, clock, history)
    ensures var (after, response) := Answer(codes, request);
            InRange(after) && Recounts(after, request.now, history + [Exchange(request, response)])
  {
    hide Sound, Answer, RecountsOne;
    SoundInRange(codes, clock);
    AnswerSound(codes, request, clock);
    var (after, response) := Answer(codes, request);
    SoundInRange(after, request.now);
    var more := history + [Exchange(request, response)];
    forall code ensures RecountsOne(after, request.now, more, code) {
      if request.HostRequest? {
        HostRecounts(codes, clock, history, request, code);
      } else {
        JoinRecounts(codes, clock, history, request, code);
      }
    }
  }

  /** The exchanges after the requests. */
  ghost function Talk(codes: Codes, clock: int, history: seq<Exchange>, requests: seq<PairRequest>): seq<Exchange>
    requires Sound(codes, clock) && Timely(clock, requests)
    decreases requests
  {
    if requests == [] then history
    else
      AnswerSound(codes, requests[0], clock);
      var (after, response) := Answer(codes, requests[0]);
      Talk(after, requests[0].now, history + [Exchange(requests[0], response)], requests[1..])
  }

  ghost predicate AllFollow(history: seq<Exchange>) {
    forall k :: 0 <= k < |history| ==> Follows(history[..k], history[k].request, history[k].response)
  }

  /** Over every run each answer follows from the exchanges before it. */
  lemma {:induction false} TalkFollows(codes: Codes, clock: int, history: seq<Exchange>, requests: seq<PairRequest>)
    requires Sound(codes, clock) && Timely(clock, requests) && Recounts(codes, clock, history) && AllFollow(history)
    ensures AllFollow(Talk(codes, clock, history, requests))
    decreases requests
  {
    hide Sound, Recounts, Follows, WellFormed, Answer, InRange;
    if requests != [] {
      SoundInRange(codes, clock);
      AnswerSound(codes, requests[0], clock);
      AnswerFollows(codes, clock, history, requests[0]);
      AnswerRecounts(codes, clock, history, requests[0]);
      var (after, response) := Answer(codes, requests[0]);
      var more := history + [Exchange(requests[0], response)];
      assert forall k :: 0 <= k < |history| ==> more[..k] == history[..k] && more[k] == history[k];
      assert more[..|history|] == history;
      TalkFollows(after, requests[0].now, more, requests[1..]);
    }
  }

  /** From an empty table on, every answer is the one that the exchanges call for: which code a host
      is shown and until when, and which workspace a join is invited to. */
  lemma ConversationFollows(clock: int, requests: seq<PairRequest>)
    requires Timely(clock, requests)
    ensures var none := Codes(map[], [], []); Sound(none, clock) && AllFollow(Talk(none, clock, [], requests))
  {
    var none := Codes(map[], [], []);
    assert forall code :: RecountsOne(none, clock, [], code);
    TalkFollows(none, clock, [], requests);
  }

  // ----- The endpoint -----

  class DemoPairingEndpoint {
    var pendingCodes: map<string, PendingCode>
    var attemptsByIp: map<string, Attempts>
    ghost var codes: Codes
    ghost var clock: int

    ghost predicate Valid()
      reads this
    {
      && Sound(codes, clock)
      && pendingCodes == Entries(codes)
    }

    constructor ()
      ensures Valid() && codes == Codes(map[], [], []) && attemptsByIp == map[]
    {
      hide Sound, Entries;
      pendingCodes, attemptsByIp := map[], map[];
      codes, clock := Codes(map[], [], []), 0;
      new;
      NothingIssued();
    }

    method AllowAttempt(ip: string, now: int) returns (allowed: bool)
      modifies this`attemptsByIp
      ensures (attemptsByIp, allowed)
           == (old(attemptsByIp)[ip := Attempt(Lookup(old(attemptsByIp), ip), now).0],
               Attempt(Lookup(old(attemptsByIp), ip), now).1)
    {
      if ip !in attemptsByIp || attemptsByIp[ip].resetAt <= now {
        attemptsByIp := attemptsByIp[ip := Attempts(1, now + 60_000)];
        return true;
      }
      var current := attemptsByIp[ip];
      attemptsByIp := attemptsByIp[ip := current.(count := current.count + 1)];
      return current.count + 1 <= 30;
    }

    method DropExpired(now: int)
      modifies this`pendingCodes
      ensures pendingCodes == Unexpired(old(pendingCodes), now)
    {
      var before := pendingCodes;
      var left := before.Keys;
      while left != {}
        invariant left <= before.Keys
        invariant pendingCodes == before - (before.Keys - left - Unexpired(before, now).Keys)
        decreases left
      {
        var code :| code in left;
        if before[code].expiresAt <= now {
          pendingCodes := pendingCodes - {code};
        }
        left := left - {code};
      }
    }

    method PruneExpired(now: int)
      requires Valid() && clock <= now
      modifies this`pendingCodes, this`codes, this`clock
      ensures Valid() && codes == Pruned(old(codes), now) && clock == now
    {
      hide Sound, Pruned, Entries, Unexpired;
      SoundInRange(codes, clock);
      DropExpired(now);
      PrunedSound(codes, clock, now);
      PrunedEntries(codes, clock, now);
      codes, clock := Pruned(codes, now), now;
    }

    method CreateCode(draws: seq<string>) returns (code: Option<string>)
      requires Valid()
      ensures code == FirstFree(codes.pending, draws)
    {
      assert pendingCodes.Keys == codes.pending.Keys;
      for i := 0 to |draws|
        invariant FirstFree(codes.pending, draws) == FirstFree(codes.pending, draws[i..])
      {
        if draws[i] !in pendingCodes {
          return Some(draws[i]);
        }
      }
      return None;
    }

    method Host(request: PairRequest) returns (response: PairResponse)
      requires Valid() && request.HostRequest? && WellFormed(request) && clock <= request.prunedAt
      modifies this`pendingCodes, this`codes, this`clock
      ensures Valid() && (codes, response) == Answer(old(codes), request) && clock == request.now
    {
      hide Sound, Digits, Pruned, Entries, FirstFree, InRange;
      SoundInRange(codes, clock);
      AnswerSound(codes, request, clock);
      ghost var answered := Answer(codes, request).0;
      PruneExpired(request.prunedAt);
      SoundInRange(codes, clock);
      var code := CreateCode(request.draws);
      if code.None? {
        codes, clock := answered, request.now;
        return NoCode;
      }
      var expiresAt := request.now + request.ttl;
      pendingCodes := pendingCodes[code.value := PendingCode(expiresAt, request.session)];
      ShownEntries(codes, code.value, PendingCode(expiresAt, request.session), clock);
      codes, clock := answered, request.now;
      return Shown(code.value, expiresAt);
    }

    method Join(request: PairRequest) returns (response: PairResponse)
      requires Valid() && request.JoinRequest? && WellFormed(request) && clock <= request.prunedAt
      modifies this`pendingCodes, this`codes, this`clock
      ensures Valid() && (codes, response) == Answer(old(codes), request) && clock == request.now
    {
      hide Sound, Digits, Pruned;
      SoundInRange(codes, clock);
      AnswerSound(codes, request, clock);
      ghost var answered := Answer(codes, request).0;
      PruneExpired(request.prunedAt);
      SoundInRange(codes, clock);
      var code := Trim(request.code);
      var found := code in pendingCodes;
      var pending := if found then pendingCodes[code] else PendingCode(0, "");
      pendingCodes := pendingCodes - {code};
      codes, clock := answered, request.now;
      if !Digits(code) || !found || pending.expiresAt <= request.now {
        return InvalidOrExpired;
      }
      return Invited(pending.session);
    }
  }

  lemma NothingIssued()
    ensures var none := Codes(map[], [], []); Sound(none, 0) && Entries(none) == map[]
  {
  }

  lemma SoundInRange(codes: Codes, clock: int)
    requires Sound(codes, clock)
    ensures InRange(codes)
  {
  }

  /** The table the endpoint holds. */
  ghost function Entries(codes: Codes): map<string, PendingCode>
    requires InRange(codes)
  {
    map code | code in codes.pending :: codes.issued[codes.pending[code]].entry
  }

  function Unexpired(entries: map<string, PendingCode>, now: int): map<string, PendingCode> {
    map code | code in entries && now < entries[code].expiresAt :: entries[code]
  }

  lemma PrunedEntries(codes: Codes, clock: int, now: int)
    requires Sound(codes, clock)
    ensures InRange(Pruned(codes, now)) && Entries(Pruned(codes, now)) == Unexpired(Entries(codes), now)
  {
  }

  lemma ShownEntries(codes: Codes, code: string, entry: PendingCode, clock: int)
    requires Sound(codes, clock)
    ensures InRange(Show(codes, code, entry)) && Entries(Show(codes, code, entry)) == Entries(codes)[code := entry]
  {
  }

}
